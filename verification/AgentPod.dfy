/** What the backup pod gives the agent, said on the pod's own fields: the task's name, the retention numbers, the
    configuration, and every claim the targets reference at its place. */
module AgentPod {
  import opened Types
  import opened Pod
  import opened PodProperties
  import Decimal

  // ---- claims ----

  /** Path j of target i is this one. */
  predicate PathAt(targets: seq<Target>, i: nat, j: nat, p: DirectoryPath) {
    && i < |targets| && targets[i].directory.Some?
    && j < |targets[i].directory.value.paths| && targets[i].directory.value.paths[j] == p
  }

  ghost predicate HasPath(targets: seq<Target>, p: DirectoryPath) {
    exists i: nat, j: nat :: PathAt(targets, i, j, p)
  }

  predicate UseOf(p: DirectoryPath, j: nat, u: PvcUse) {
    p.pvcRef.Some? && u == PvcUse(j, p.pvcRef.value, p.path, p.subPath)
  }

  lemma {:induction false} PathUsesExact(paths: seq<DirectoryPath>, u: PvcUse)
    ensures u in PathUses(paths) <==> u.index < |paths| && UseOf(paths[u.index], u.index, u)
  {
    if paths != [] {
      var n := |paths| - 1;
      PathUsesExact(paths[..n], u);
      assert u.index < n ==> paths[..n][u.index] == paths[u.index];
    }
  }

  /** The uses are those of the targets' paths, no more and no less. */
  lemma {:induction false} PvcUsesExact(targets: seq<Target>, u: PvcUse)
    ensures u in PvcUses(targets) <==> exists i: nat, p :: PathAt(targets, i, u.index, p) && UseOf(p, u.index, u)
  {
    hide PathUses;
    if targets != [] {
      var n := |targets| - 1;
      var (front, last) := (targets[..n], targets[n]);
      PvcUsesExact(front, u);
      assert forall i: nat, p :: i < n ==> PathAt(front, i, u.index, p) == PathAt(targets, i, u.index, p);
      if last.directory.Some? {
        PathUsesExact(last.directory.value.paths, u);
        assert u in TargetUses(last) <==> exists p :: PathAt(targets, n, u.index, p) && UseOf(p, u.index, u) by {
          if u in TargetUses(last) {
            assert PathAt(targets, n, u.index, last.directory.value.paths[u.index]);
          }
        }
      }
      hide PathAt, UseOf;
      assert u in PvcUses(targets) <==> u in PvcUses(front) || u in TargetUses(last);
    }
  }

  /** The claim of the path is a volume under a name nothing else has, and that name is mounted, read-only, at the
      path with its sub-path. */
  ghost predicate MountsPath(pod: PodSpec, p: DirectoryPath)
    requires p.pvcRef.Some?
  {
    exists n :: NamesOnly(pod.volumes, n, Claim(p.pvcRef.value)) && Mount(n, p.path, p.subPath, true) in pod.mounts
  }

  ghost predicate NamesOnly(volumes: seq<Volume>, n: string, source: VolumeSource) {
    && Volume(n, source) in volumes
    && forall v :: v in volumes && v.name == n ==> v.source == source
  }

  /** The claims in the pod are those the targets reference. */
  ghost predicate ServesClaims(pod: PodSpec, targets: seq<Target>) {
    && (forall p :: HasPath(targets, p) && p.pvcRef.Some? ==> MountsPath(pod, p))
    && (forall v :: v in pod.volumes && v.source.Claim? ==>
          exists p :: HasPath(targets, p) && p.pvcRef == Some(v.source.claim))
  }

  /** The remote NFS export, if that is the storage, is mounted for writing, and nothing else from NFS. */
  ghost predicate ServesStorage(pod: PodSpec, storage: RemoteStorage) {
    && (storage.kind == "nfs" && storage.nfs.Some? ==>
          exists n ::
            && NamesOnly(pod.volumes, n, VolumeSource.Nfs(storage.nfs.value.server, storage.nfs.value.path))
            && Mount(n, "/mnt/nfs-backup", "", false) in pod.mounts)
    && (forall v :: v in pod.volumes && v.source.Nfs? ==>
          && storage.kind == "nfs" && storage.nfs.Some?
          && (v.source.server, v.source.path) == (storage.nfs.value.server, storage.nfs.value.path))
  }

  /** The agent's configuration directory is this ConfigMap and no other is in the pod. */
  ghost predicate ServesConfig(pod: PodSpec, configMap: string) {
    && (exists n ::
          NamesOnly(pod.volumes, n, TargetConfig(configMap)) && Mount(n, "/etc/backup/config", "", true) in pod.mounts)
    && (forall v :: v in pod.volumes && v.source.TargetConfig? ==> v.source.configMap == configMap)
  }

  /** Scratch space for data and temporary files, both writable. */
  ghost predicate ServesScratch(pod: PodSpec) {
    exists data, temp ::
      && NamesOnly(pod.volumes, data, EmptyDir(10)) && Mount(data, "/backup/data", "", false) in pod.mounts
      && NamesOnly(pod.volumes, temp, EmptyDir(5)) && Mount(temp, "/tmp", "", false) in pod.mounts
  }

  /** The number is passed under this name exactly when it is set, in decimal. */
  ghost predicate Passes(env: seq<EnvVar>, name: string, n: Option<int32>) {
    forall text :: EnvVar(name, text) in env <==> n.Some? && text == Decimal.Itoa(n.value)
  }

  /** KeepLast numbers count as set when they are not zero. */
  ghost predicate ServesPolicy(env: seq<EnvVar>, retention: Option<RetentionPolicy>) {
    var keep := if retention.Some? then retention.value.keepLast else None;
    && Passes(env, "RETENTION_MAX_AGE_DAYS", if retention.Some? then retention.value.maxAgeDays else None)
    && Passes(env, "RETENTION_MAX_BACKUP_COUNT", if retention.Some? then retention.value.maxBackupCount else None)
    && Passes(env, "RETENTION_KEEP_LAST_HOURS",
              if keep.Some? && keep.value.hours != 0 then Some(keep.value.hours) else None)
    && Passes(env, "RETENTION_KEEP_LAST_DAYS",
              if keep.Some? && keep.value.days != 0 then Some(keep.value.days) else None)
    && Passes(env, "RETENTION_KEEP_LAST_WEEKS",
              if keep.Some? && keep.value.weeks != 0 then Some(keep.value.weeks) else None)
    && Passes(env, "RETENTION_KEEP_LAST_MONTHS",
              if keep.Some? && keep.value.months != 0 then Some(keep.value.months) else None)
  }

  ghost predicate ServesIdentity(env: seq<EnvVar>, k: Key) {
    forall text ::
      && (EnvVar("BACKUP_TASK_NAME", text) in env <==> text == k.name)
      && (EnvVar("BACKUP_TASK_NAMESPACE", text) in env <==> text == k.ns)
      && (EnvField("BACKUP_ID", text) in env <==> text == "metadata.uid")
      && (EnvField("POD_NAME", text) in env <==> text == "metadata.name")
  }

  /** What runs: the image and command given, or both defaults together. */
  predicate RunsAgent(pod: PodSpec, spec: TaskSpec) {
    var (image, command) :=
      if spec.backupImage == "" then ("backup-agent:latest", "/backup/scripts/backup.sh")
      else (spec.backupImage, spec.backupCmd);
    pod.image == image && pod.command == ["/bin/bash", "-c", command]
  }

  /** All of it, for task k with this specification. */
  ghost predicate ServesTask(pod: PodSpec, k: Key, spec: TaskSpec) {
    && RunsAgent(pod, spec)
    && ServesIdentity(pod.env, k) && ServesPolicy(pod.env, spec.retention)
    && ServesScratch(pod) && ServesConfig(pod, k.name + "-targets")
    && ServesClaims(pod, spec.targets) && ServesStorage(pod, spec.remoteStorage)
  }

  // ---- the built pod ----

  lemma {:induction false} NumberVarsExact(vars: seq<(string, Option<int32>)>, e: EnvVar)
    ensures e in NumberVars(vars) <==> exists i :: 0 <= i < |vars| && e in NumberVar(vars[i].0, vars[i].1)
  {
    hide NumberVar;
    if vars != [] {
      var n := |vars| - 1;
      var (front, last) := (vars[..n], vars[n]);
      NumberVarsExact(front, e);
      assert e in NumberVars(vars) <==> e in NumberVars(front) || e in NumberVar(last.0, last.1);
      hide NumberVars;
      if i :| 0 <= i < n && e in NumberVar(vars[i].0, vars[i].1) {
        assert front[i] == vars[i];
      }
    }
  }

  lemma PassesAt(vars: seq<(string, Option<int32>)>, i: nat)
    requires DistinctVars(vars) && i < |vars|
    ensures Passes(NumberVars(vars), vars[i].0, vars[i].1)
  {
    forall text ensures EnvVar(vars[i].0, text) in NumberVars(vars) <==>
                        vars[i].1.Some? && text == Decimal.Itoa(vars[i].1.value)
    {
      var e := EnvVar(vars[i].0, text);
      NumberVarsExact(vars, e);
      hide Decimal.Itoa;
      assert e in NumberVar(vars[i].0, vars[i].1) <==> vars[i].1.Some? && text == Decimal.Itoa(vars[i].1.value);
    }
  }

  function FixedVars(k: Key): seq<EnvVar> {
    [EnvVar("BACKUP_TASK_NAME", k.name), EnvVar("BACKUP_TASK_NAMESPACE", k.ns),
     EnvField("BACKUP_ID", "metadata.uid"), EnvField("POD_NAME", "metadata.name")]
  }

  lemma PassesBehindFixed(k: Key, env: seq<EnvVar>, name: string, n: Option<int32>)
    requires Passes(env, name, n) && name != [] && name[0] == 'R'
    ensures Passes(FixedVars(k) + env, name, n)
  {
    var fixed := FixedVars(k);
    assert fixed[0].name[0] == 'B' && fixed[1].name[0] == 'B';
    forall text ensures EnvVar(name, text) !in fixed {
    }
  }

  lemma NothingPassed(k: Key, name: string)
    requires name != [] && name[0] == 'R'
    ensures Passes(FixedVars(k) + [], name, None)
  {
    PassesBehindFixed(k, [], name, None);
  }

  lemma PolicyServed(k: Key, retention: Option<RetentionPolicy>)
    ensures ServesPolicy(FixedVars(k) + RetentionEnv(retention), retention)
  {
    hide Decimal.Itoa, FixedVars, Passes;
    if retention.Some? {
      var v := RetentionNumbers(retention.value);
      RetentionNumbersAt(retention.value);
      RetentionNamesDistinct(retention.value);
      hide RetentionNumbers, NumberVars;
      forall i | 0 <= i < 6 ensures Passes(FixedVars(k) + NumberVars(v), v[i].0, v[i].1) {
        PassesAt(v, i);
        PassesBehindFixed(k, NumberVars(v), v[i].0, v[i].1);
      }
    } else {
      NothingPassed(k, "RETENTION_MAX_AGE_DAYS");
      NothingPassed(k, "RETENTION_MAX_BACKUP_COUNT");
      NothingPassed(k, "RETENTION_KEEP_LAST_HOURS");
      NothingPassed(k, "RETENTION_KEEP_LAST_DAYS");
      NothingPassed(k, "RETENTION_KEEP_LAST_WEEKS");
      NothingPassed(k, "RETENTION_KEEP_LAST_MONTHS");
    }
  }

  lemma PolicyVarsNamed(retention: Option<RetentionPolicy>, e: EnvVar)
    requires e in RetentionEnv(retention)
    ensures e.EnvVar? && e.name != [] && e.name[0] == 'R'
  {
    var v := RetentionNumbers(retention.value);
    RetentionNumbersAt(retention.value);
    NumberVarsExact(v, e);
    hide Decimal.Itoa, RetentionNumbers, NumberVars;
  }

  lemma FixedVarsExact(k: Key, text: string)
    ensures var fixed := FixedVars(k);
            && (EnvVar("BACKUP_TASK_NAME", text) in fixed <==> text == k.name)
            && (EnvVar("BACKUP_TASK_NAMESPACE", text) in fixed <==> text == k.ns)
            && (EnvField("BACKUP_ID", text) in fixed <==> text == "metadata.uid")
            && (EnvField("POD_NAME", text) in fixed <==> text == "metadata.name")
  {
    var fixed := FixedVars(k);
    assert |fixed[0].name| == 16 && |fixed[1].name| == 21 && |fixed[2].name| == 9 && |fixed[3].name| == 8;
    assert |"BACKUP_TASK_NAME"| == 16 && |"BACKUP_TASK_NAMESPACE"| == 21 && |"BACKUP_ID"| == 9 && |"POD_NAME"| == 8;
    hide FixedVars;
  }

  lemma IdentityServed(k: Key, retention: Option<RetentionPolicy>)
    ensures ServesIdentity(FixedVars(k) + RetentionEnv(retention), k)
  {
    hide RetentionEnv, FixedVars;
    forall text
      ensures var env := FixedVars(k) + RetentionEnv(retention);
              && (EnvVar("BACKUP_TASK_NAME", text) in env <==> text == k.name)
              && (EnvVar("BACKUP_TASK_NAMESPACE", text) in env <==> text == k.ns)
              && (EnvField("BACKUP_ID", text) in env <==> text == "metadata.uid")
              && (EnvField("POD_NAME", text) in env <==> text == "metadata.name")
    {
      FixedVarsExact(k, text);
      assert "BACKUP_TASK_NAME"[0] == 'B' && "BACKUP_TASK_NAMESPACE"[0] == 'B';
      forall e | e in RetentionEnv(retention) ensures e.EnvVar? && e.name != [] && e.name[0] == 'R' {
        PolicyVarsNamed(retention, e);
      }
    }
  }

  /** Where the volumes of the pod come from. */
  lemma VolumeSources(taskName: string, spec: TaskSpec, v: Volume)
    ensures v in Volumes(taskName, spec) <==>
            || v == Volume("backup-data", EmptyDir(10)) || v == Volume("temp", EmptyDir(5))
            || v == Volume("backup-config", TargetConfig(taskName + "-targets"))
            || (exists u :: u in PvcUses(spec.targets) && v == ClaimVolume(u))
            || (UsesNfs(spec.remoteStorage) && v == Volume("nfs-storage", VolumeSource.Nfs(
                spec.remoteStorage.nfs.value.server, spec.remoteStorage.nfs.value.path)))
  {
    hide PvcUses, ClaimVolume;
    var uses := PvcUses(spec.targets);
    assert v in ClaimVolumes(uses) <==> exists u :: u in uses && v == ClaimVolume(u) by {
      if u :| u in uses && v == ClaimVolume(u) {
        var i :| 0 <= i < |uses| && uses[i] == u;
        assert ClaimVolumes(uses)[i] == v;
      }
    }
    hide ClaimVolumes;
    assert v in Volumes(taskName, spec) <==>
      v in FixedVolumes(taskName) || v in ClaimVolumes(uses) || v in NfsVolumes(spec.remoteStorage);
  }

  lemma MountPlaces(spec: TaskSpec)
    ensures var mounts := Mounts(spec);
            && Mount("backup-data", "/backup/data", "", false) in mounts
            && Mount("temp", "/tmp", "", false) in mounts
            && Mount("backup-config", "/etc/backup/config", "", true) in mounts
            && (UsesNfs(spec.remoteStorage) ==> Mount("nfs-storage", "/mnt/nfs-backup", "", false) in mounts)
            && forall u :: u in PvcUses(spec.targets) ==> ClaimMount(u) in mounts
  {
    hide PvcUses, ClaimMount;
    var uses := PvcUses(spec.targets);
    forall u | u in uses ensures ClaimMount(u) in ClaimMounts(uses) {
      var i :| 0 <= i < |uses| && uses[i] == u;
      assert ClaimMounts(uses)[i] == ClaimMount(u);
    }
    assert forall i :: 0 <= i < 3 ==> Mounts(spec)[i] == FIXED_MOUNTS[i];
  }

  /** A volume's name tells its source. */
  lemma NamesTell(taskName: string, spec: TaskSpec, v: Volume, w: Volume)
    requires v in Volumes(taskName, spec) && w in Volumes(taskName, spec) && v.name == w.name
    ensures v.source == w.source
  {
    VolumeSources(taskName, spec, v);
    VolumeSources(taskName, spec, w);
    FixedNamesDistinct();
    assert "backup-data" == FIXED_NAMES[0] && "temp" == FIXED_NAMES[1] && "backup-config" == FIXED_NAMES[2];
    forall u, x | u in PvcUses(spec.targets) && x in PvcUses(spec.targets)
      ensures ClaimVolume(u).name !in FIXED_NAMES && ClaimVolume(u).name != "nfs-storage"
      ensures ClaimVolume(u).name == ClaimVolume(x).name <==> u.claim == x.claim
    {
      ClaimNamesFresh(u.claim);
      ClaimNamesInjective(u.claim, x.claim);
    }
    hide Volumes, PvcUses, FIXED_NAMES;
  }

  lemma VolumeNamed(taskName: string, spec: TaskSpec, v: Volume)
    requires v in Volumes(taskName, spec)
    ensures NamesOnly(Volumes(taskName, spec), v.name, v.source)
  {
    hide Volumes;
    forall w | w in Volumes(taskName, spec) && w.name == v.name ensures w.source == v.source {
      NamesTell(taskName, spec, v, w);
    }
  }

  lemma PathServed(pod: PodSpec, taskName: string, spec: TaskSpec, p: DirectoryPath)
    requires pod.volumes == Volumes(taskName, spec) && pod.mounts == Mounts(spec)
    requires HasPath(spec.targets, p) && p.pvcRef.Some?
    ensures MountsPath(pod, p)
  {
    hide Volumes, Mounts, PvcUses, NamesOnly;
    var i: nat, j: nat :| PathAt(spec.targets, i, j, p);
    var u := PvcUse(j, p.pvcRef.value, p.path, p.subPath);
    assert UseOf(p, j, u);
    PvcUsesExact(spec.targets, u);
    VolumeSources(taskName, spec, ClaimVolume(u));
    VolumeNamed(taskName, spec, ClaimVolume(u));
    MountPlaces(spec);
  }

  lemma ClaimsServed(pod: PodSpec, taskName: string, spec: TaskSpec)
    requires pod.volumes == Volumes(taskName, spec) && pod.mounts == Mounts(spec)
    ensures ServesClaims(pod, spec.targets)
  {
    hide Volumes, Mounts, PvcUses, HasPath, MountsPath;
    forall p | HasPath(spec.targets, p) && p.pvcRef.Some? ensures MountsPath(pod, p) {
      PathServed(pod, taskName, spec, p);
    }
    forall v | v in pod.volumes && v.source.Claim?
      ensures exists p :: HasPath(spec.targets, p) && p.pvcRef == Some(v.source.claim)
    {
      VolumeSources(taskName, spec, v);
      var u :| u in PvcUses(spec.targets) && v == ClaimVolume(u);
      PvcUsesExact(spec.targets, u);
      var i: nat, p :| PathAt(spec.targets, i, u.index, p) && UseOf(p, u.index, u);
      PathFound(spec.targets, i, u.index, p);
    }
  }

  lemma PathFound(targets: seq<Target>, i: nat, j: nat, p: DirectoryPath)
    requires PathAt(targets, i, j, p)
    ensures HasPath(targets, p)
  {
  }

  lemma StorageServed(pod: PodSpec, taskName: string, spec: TaskSpec)
    requires pod.volumes == Volumes(taskName, spec) && pod.mounts == Mounts(spec)
    ensures ServesStorage(pod, spec.remoteStorage)
  {
    hide Volumes, Mounts, PvcUses, NamesOnly;
    MountPlaces(spec);
    if UsesNfs(spec.remoteStorage) {
      var nfs := spec.remoteStorage.nfs.value;
      var v := Volume("nfs-storage", VolumeSource.Nfs(nfs.server, nfs.path));
      VolumeSources(taskName, spec, v);
      VolumeNamed(taskName, spec, v);
    }
    forall v | v in pod.volumes && v.source.Nfs?
      ensures UsesNfs(spec.remoteStorage)
              && (v.source.server, v.source.path) ==
                 (spec.remoteStorage.nfs.value.server, spec.remoteStorage.nfs.value.path)
    {
      VolumeSources(taskName, spec, v);
    }
  }

  lemma ConfigServed(pod: PodSpec, taskName: string, spec: TaskSpec)
    requires pod.volumes == Volumes(taskName, spec) && pod.mounts == Mounts(spec)
    ensures ServesConfig(pod, taskName + "-targets") && ServesScratch(pod)
  {
    hide Volumes, Mounts, PvcUses, NamesOnly;
    MountPlaces(spec);
    var (data, temp) := (Volume("backup-data", EmptyDir(10)), Volume("temp", EmptyDir(5)));
    var config := Volume("backup-config", TargetConfig(taskName + "-targets"));
    VolumeSources(taskName, spec, data);
    VolumeSources(taskName, spec, temp);
    VolumeSources(taskName, spec, config);
    VolumeNamed(taskName, spec, data);
    VolumeNamed(taskName, spec, temp);
    VolumeNamed(taskName, spec, config);
    forall v | v in pod.volumes && v.source.TargetConfig? ensures v.source.configMap == taskName + "-targets" {
      VolumeSources(taskName, spec, v);
    }
  }

  /** The built pod runs the given image and command or both defaults, tells the agent who it is and what the
      policy says, mounts the task's ConfigMap at the configuration directory, every referenced claim read-only at
      its path, and the NFS export when that is the storage. */
  lemma BuiltPodServesTask(k: Key, spec: TaskSpec)
    ensures ServesTask(BuildPod(k, spec), k, spec)
  {
    var pod := BuildPod(k, spec);
    assert pod.env == FixedVars(k) + RetentionEnv(spec.retention);
    hide Volumes, Mounts, FixedVars, RetentionEnv, ServesClaims, ServesStorage, ServesConfig, ServesScratch;
    hide ServesPolicy, ServesIdentity;
    IdentityServed(k, spec.retention);
    PolicyServed(k, spec.retention);
    ConfigServed(pod, k.name, spec);
    ClaimsServed(pod, k.name, spec);
    StorageServed(pod, k.name, spec);
  }

  // ---- the earlier pod ----

  /** In the earlier pod the claim of path j of any target is a volume mounted, read-only and with the sub-path, at a
      place numbered j, whatever the path says. */
  lemma EarlierPodServesClaims(spec: TaskSpec, i: nat, j: nat, p: DirectoryPath)
    requires PathAt(spec.targets, i, j, p) && p.pvcRef.Some?
    ensures exists n ::
      && Volume(n, Claim(p.pvcRef.value)) in EarlierVolumes(spec)
      && Mount(n, "/mnt/pvc-" + Decimal.Print(j), p.subPath, true) in EarlierMounts(spec)
  {
    hide PvcUses, SecretVolumes, Decimal.Print;
    var u := PvcUse(j, p.pvcRef.value, p.path, p.subPath);
    var uses := PvcUses(spec.targets);
    assert UseOf(p, j, u);
    PvcUsesExact(spec.targets, u);
    var m :| 0 <= m < |uses| && uses[m] == u;
    assert ClaimVolumes(uses)[m] == ClaimVolume(u) && EarlierClaimMounts(uses)[m] == EarlierClaimMount(u);
    assert ClaimVolume(u) in ClaimVolumes(uses) && EarlierClaimMount(u) in EarlierClaimMounts(uses);
    hide ClaimVolumes, EarlierClaimMounts;
    assert ClaimVolume(u) in EarlierVolumes(spec) && EarlierClaimMount(u) in EarlierMounts(spec);
  }
}
