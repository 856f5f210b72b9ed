/** Volumes and mounts of the backup pod agree, in the current builder and in the earlier one, and the
    retention environment loses nothing the policy says. */
module PodProperties {
  import opened Types
  import opened Pod
  import Decimal

  function VolumeNames(volumes: seq<Volume>): seq<string> {
    seq(|volumes|, i requires 0 <= i < |volumes| => volumes[i].name)
  }

  function MountNames(mounts: seq<Mount>): seq<string> {
    seq(|mounts|, i requires 0 <= i < |mounts| => mounts[i].name)
  }

  function ClaimName(u: PvcUse): string { "pvc-" + u.claim }

  function ClaimNames(uses: seq<PvcUse>): seq<string> {
    seq(|uses|, i requires 0 <= i < |uses| => ClaimName(uses[i]))
  }

  function Claims(uses: seq<PvcUse>): seq<string> {
    seq(|uses|, i requires 0 <= i < |uses| => uses[i].claim)
  }

  ghost predicate Distinct<T(!new)>(s: seq<T>) {
    forall i, j :: 0 <= i < j < |s| ==> s[i] != s[j]
  }

  const FIXED_NAMES: seq<string> := ["backup-data", "temp", "backup-config"]

  function NfsNames(storage: RemoteStorage): seq<string> {
    if UsesNfs(storage) then ["nfs-storage"] else []
  }

  lemma NamesAppend(a: seq<Volume>, b: seq<Volume>, c: seq<Mount>, d: seq<Mount>)
    ensures VolumeNames(a + b) == VolumeNames(a) + VolumeNames(b)
    ensures MountNames(c + d) == MountNames(c) + MountNames(d)
  {
  }

  lemma NamesOfClaims(uses: seq<PvcUse>)
    ensures VolumeNames(ClaimVolumes(uses)) == ClaimNames(uses)
    ensures MountNames(ClaimMounts(uses)) == ClaimNames(uses)
    ensures MountNames(EarlierClaimMounts(uses)) == ClaimNames(uses)
  {
  }

  lemma NamesOfParts(taskName: string, spec: TaskSpec)
    ensures VolumeNames(Volumes(taskName, spec)) ==
            FIXED_NAMES + ClaimNames(PvcUses(spec.targets)) + NfsNames(spec.remoteStorage)
    ensures MountNames(Mounts(spec)) == FIXED_NAMES + NfsNames(spec.remoteStorage) + ClaimNames(PvcUses(spec.targets))
  {
    var uses := PvcUses(spec.targets);
    var (vs, ms) := (ClaimVolumes(uses), ClaimMounts(uses));
    NamesOfClaims(uses);
    NamesAppend(FixedVolumes(taskName), vs, FIXED_MOUNTS, NfsMounts(spec.remoteStorage));
    NamesAppend(FixedVolumes(taskName) + vs, NfsVolumes(spec.remoteStorage),
      FIXED_MOUNTS + NfsMounts(spec.remoteStorage), ms);
    assert VolumeNames(FixedVolumes(taskName)) == FIXED_NAMES == MountNames(FIXED_MOUNTS);
    assert VolumeNames(NfsVolumes(spec.remoteStorage)) == NfsNames(spec.remoteStorage)
      == MountNames(NfsMounts(spec.remoteStorage));
  }

  /** Every volume is mounted and every mount has a volume, as often as the other side names it. */
  lemma VolumesMatchMounts(taskName: string, spec: TaskSpec)
    ensures multiset(VolumeNames(Volumes(taskName, spec))) == multiset(MountNames(Mounts(spec)))
  {
    NamesOfParts(taskName, spec);
    var (claims, nfs) := (ClaimNames(PvcUses(spec.targets)), NfsNames(spec.remoteStorage));
    assert multiset(FIXED_NAMES + claims + nfs) == multiset(FIXED_NAMES) + multiset(claims) + multiset(nfs);
    assert multiset(FIXED_NAMES + nfs + claims) == multiset(FIXED_NAMES) + multiset(nfs) + multiset(claims);
  }

  lemma ClaimNamesInjective(a: string, b: string)
    ensures "pvc-" + a == "pvc-" + b <==> a == b
  {
    assert ("pvc-" + a)[4..] == a && ("pvc-" + b)[4..] == b;
  }

  lemma ClaimNamesFresh(a: string)
    ensures "pvc-" + a !in FIXED_NAMES && "pvc-" + a != "nfs-storage"
  {
    assert ("pvc-" + a)[0] == 'p';
    assert FIXED_NAMES[0][0] == 'b' && FIXED_NAMES[1][0] == 't' && FIXED_NAMES[2][0] == 'b' && "nfs-storage"[0] == 'n';
  }

  lemma FixedNamesDistinct()
    ensures Distinct(FIXED_NAMES) && "nfs-storage" !in FIXED_NAMES
  {
    assert |FIXED_NAMES[0]| == 11 && |FIXED_NAMES[1]| == 4 && |FIXED_NAMES[2]| == 13;
    assert FIXED_NAMES[0][0] == 'b' && "nfs-storage"[0] == 'n';
  }

  /** The pod's volume names are pairwise distinct exactly when no claim is referenced twice. */
  lemma VolumeNamesDistinctIff(taskName: string, spec: TaskSpec)
    ensures Distinct(VolumeNames(Volumes(taskName, spec))) <==> Distinct(Claims(PvcUses(spec.targets)))
  {
    NamesOfParts(taskName, spec);
    var uses := PvcUses(spec.targets);
    var (names, claims, nfs) := (VolumeNames(Volumes(taskName, spec)), ClaimNames(uses), NfsNames(spec.remoteStorage));
    var n := |uses|;
    if Distinct(names) {
      forall i, j | 0 <= i < j < n ensures Claims(uses)[i] != Claims(uses)[j] {
        assert names[3 + i] == claims[i] == "pvc-" + uses[i].claim;
        assert names[3 + j] == claims[j] == "pvc-" + uses[j].claim;
        assert names[3 + i] != names[3 + j];
      }
    }
    if Distinct(Claims(uses)) {
      FixedNamesDistinct();
      forall i, j | 0 <= i < j < |names| ensures names[i] != names[j] {
        NamesDiffer(uses, names, nfs, i, j);
      }
    }
  }

  lemma NamesDiffer(uses: seq<PvcUse>, names: seq<string>, nfs: seq<string>, i: nat, j: nat)
    requires names == FIXED_NAMES + ClaimNames(uses) + nfs && (nfs == [] || nfs == ["nfs-storage"])
    requires Distinct(Claims(uses)) && i < j < |names|
    ensures names[i] != names[j]
  {
    FixedNamesDistinct();
    var n := |uses|;
    if 3 <= i < 3 + n {
      ClaimNamesFresh(uses[i - 3].claim);
    }
    if 3 <= j < 3 + n {
      ClaimNamesFresh(uses[j - 3].claim);
    }
    if 3 <= i && j < 3 + n {
      assert Claims(uses)[i - 3] != Claims(uses)[j - 3];
      ClaimNamesInjective(uses[i - 3].claim, uses[j - 3].claim);
    } else if i < 3 && j < 3 {
      assert names[i] == FIXED_NAMES[i] && names[j] == FIXED_NAMES[j];
    } else if i < 3 {
      assert names[i] == FIXED_NAMES[i] && FIXED_NAMES[i] in FIXED_NAMES;
      assert names[j] == if j < 3 + n then "pvc-" + uses[j - 3].claim else "nfs-storage";
    } else {
      assert names[i] == "pvc-" + uses[i - 3].claim && names[j] == "nfs-storage";
    }
  }

  /** The earlier builder: no config volume, secret volumes that are never mounted. */
  const EARLIER_FIXED_VOLUMES: seq<Volume> := [Volume("backup-data", EmptyDir(10)), Volume("temp", EmptyDir(5))]
  const EARLIER_FIXED_MOUNTS: seq<Mount> :=
    [Mount("backup-data", "/backup/data", "", false), Mount("temp", "/tmp", "", false)]

  function SecretVolumes(spec: TaskSpec): seq<Volume> {
    (if spec.remoteStorage.sftp.Some?
     then [Volume("sftp-secret", Secret(spec.remoteStorage.sftp.value.authSecret))] else [])
    + if spec.encryption.Some? && spec.encryption.value.enabled
      then [Volume("encryption-key", Secret(spec.encryption.value.keySecret))] else []
  }

  function EarlierVolumes(spec: TaskSpec): seq<Volume> {
    EARLIER_FIXED_VOLUMES + ClaimVolumes(PvcUses(spec.targets)) + SecretVolumes(spec)
  }

  function EarlierMounts(spec: TaskSpec): seq<Mount> {
    EARLIER_FIXED_MOUNTS + EarlierClaimMounts(PvcUses(spec.targets))
  }

  method EarlierBuildVolumes(spec: TaskSpec) returns (volumes: seq<Volume>)
    ensures volumes == EarlierVolumes(spec)
  {
    volumes := AppendClaimVolumes(EARLIER_FIXED_VOLUMES, spec.targets);
    hide EARLIER_FIXED_VOLUMES, ClaimVolumes, PvcUses;
    if spec.remoteStorage.sftp.Some? {
      volumes := volumes + [Volume("sftp-secret", Secret(spec.remoteStorage.sftp.value.authSecret))];
    }
    if spec.encryption.Some? && spec.encryption.value.enabled {
      volumes := volumes + [Volume("encryption-key", Secret(spec.encryption.value.keySecret))];
    }
  }

  /** Mount paths are numbered per target, by position among its paths. */
  method EarlierBuildVolumeMounts(spec: TaskSpec) returns (mounts: seq<Mount>)
    ensures mounts == EarlierMounts(spec)
  {
    mounts := EARLIER_FIXED_MOUNTS;
    ghost var fixed, uses := mounts, [];
    NoUses([], spec.targets);
    assert fixed + EarlierClaimMounts([]) == fixed;
    hide PathUses, PvcUses, EarlierClaimMounts, EARLIER_FIXED_MOUNTS;
    for i := 0 to |spec.targets|
      invariant uses == PvcUses(spec.targets[..i])
      invariant mounts == fixed + EarlierClaimMounts(uses)
    {
      ghost var before := uses;
      if spec.targets[i].directory.Some? {
        var paths := spec.targets[i].directory.value.paths;
        NoUses(paths, spec.targets);
        for j := 0 to |paths|
          invariant uses == before + PathUses(paths[..j])
          invariant mounts == fixed + EarlierClaimMounts(uses)
        {
          PathUsesStep(paths, j);
          if paths[j].pvcRef.Some? {
            var u := PvcUse(j, paths[j].pvcRef.value, paths[j].path, paths[j].subPath);
            mounts := mounts + [EarlierClaimMount(u)];
            ClaimsSnoc(uses, u);
            uses := uses + [u];
          }
        }
        assert paths[..|paths|] == paths;
      }
      PvcUsesStep(spec.targets, i);
    }
    assert spec.targets[..|spec.targets|] == spec.targets;
  }

  /** In the earlier builder every mount has its volume; what is left over are the secret volumes. */
  lemma EarlierMountsHaveVolumes(spec: TaskSpec)
    ensures multiset(VolumeNames(EarlierVolumes(spec))) ==
      multiset(MountNames(EarlierMounts(spec))) + multiset(VolumeNames(SecretVolumes(spec)))
  {
    var uses := PvcUses(spec.targets);
    var (fixed, claims) := (["backup-data", "temp"], ClaimNames(uses));
    NamesOfClaims(uses);
    NamesAppend(EARLIER_FIXED_VOLUMES, ClaimVolumes(uses), EARLIER_FIXED_MOUNTS, EarlierClaimMounts(uses));
    NamesAppend(EARLIER_FIXED_VOLUMES + ClaimVolumes(uses), SecretVolumes(spec), [], []);
    assert VolumeNames(EARLIER_FIXED_VOLUMES) == fixed == MountNames(EARLIER_FIXED_MOUNTS);
  }

  /** Its claim mount paths are pairwise distinct exactly when no two uses have the same position
      within their targets, so two directory targets with a claim each at the front collide. */
  lemma EarlierMountPathsDistinctIff(spec: TaskSpec)
    ensures var uses := PvcUses(spec.targets);
            (forall i, j :: 0 <= i < j < |uses| ==>
               EarlierClaimMount(uses[i]).mountPath != EarlierClaimMount(uses[j]).mountPath)
            <==> (forall i, j :: 0 <= i < j < |uses| ==> uses[i].index != uses[j].index)
  {
    var uses := PvcUses(spec.targets);
    forall u, v ensures EarlierClaimMount(u).mountPath == EarlierClaimMount(v).mountPath <==> u.index == v.index {
      EarlierMountPathOf(u, v);
    }
  }

  lemma EarlierMountPathOf(u: PvcUse, v: PvcUse)
    ensures EarlierClaimMount(u).mountPath == EarlierClaimMount(v).mountPath <==> u.index == v.index
  {
    var (a, b) := (EarlierClaimMount(u).mountPath, EarlierClaimMount(v).mountPath);
    if a == b {
      assert a[9..] == Decimal.Print(u.index) && b[9..] == Decimal.Print(v.index);
      Decimal.PrintInjective(u.index, v.index);
    }
  }

  ghost predicate DistinctVars(vars: seq<(string, Option<int32>)>) {
    forall i, j :: 0 <= i < j < |vars| ==> vars[i].0 != vars[j].0
  }

  ghost predicate SameVars(a: seq<(string, Option<int32>)>, b: seq<(string, Option<int32>)>) {
    |a| == |b| && forall i :: 0 <= i < |a| ==> a[i].0 == b[i].0
  }

  lemma {:induction false} VarsAreNamed(vars: seq<(string, Option<int32>)>, e: EnvVar)
    requires e in NumberVars(vars)
    ensures exists i :: 0 <= i < |vars| && vars[i].0 == e.name
  {
    var n := |vars| - 1;
    if e in NumberVars(vars[..n]) {
      VarsAreNamed(vars[..n], e);
      var i :| 0 <= i < n && vars[..n][i].0 == e.name;
      assert vars[i].0 == e.name;
    } else {
      assert e in NumberVar(vars[n].0, vars[n].1);
    }
  }

  /** The last variable is set exactly when its name ends the list. */
  lemma LastVar(vars: seq<(string, Option<int32>)>)
    requires DistinctVars(vars) && vars != []
    ensures var (env, last) := (NumberVars(vars), vars[|vars| - 1]);
            last.1.Some? <==> env != [] && env[|env| - 1].name == last.0
  {
    var (env, n) := (NumberVars(vars), |vars| - 1);
    if vars[n].1.None? && env != [] {
      VarsAreNamed(vars[..n], env[|env| - 1]);
    }
  }

  /** Equal environments have equal last variables and equal environments before them. */
  lemma LastVarsEqual(a: seq<(string, Option<int32>)>, b: seq<(string, Option<int32>)>)
    requires a != [] && DistinctVars(a) && SameVars(a, b) && NumberVars(a) == NumberVars(b)
    ensures var n := |a| - 1; a[n] == b[n] && NumberVars(a[..n]) == NumberVars(b[..n])
  {
    hide Decimal.Itoa;
    var n := |a| - 1;
    LastVar(a);
    LastVar(b);
    var (env, fa, fb) := (NumberVars(a), NumberVars(a[..n]), NumberVars(b[..n]));
    assert env == fa + NumberVar(a[n].0, a[n].1) == fb + NumberVar(b[n].0, b[n].1);
    hide NumberVars;
    if a[n].1.Some? {
      assert env[|env| - 1].value == Decimal.Itoa(a[n].1.value) == Decimal.Itoa(b[n].1.value);
      Decimal.ItoaInjective(a[n].1.value, b[n].1.value);
      assert env[..|env| - 1] == fa == fb;
    } else {
      assert fa + [] == fa && fb + [] == fb;
    }
  }

  lemma {:induction false} NumberVarsInjective(a: seq<(string, Option<int32>)>, b: seq<(string, Option<int32>)>)
    requires DistinctVars(a) && SameVars(a, b) && NumberVars(a) == NumberVars(b)
    ensures a == b
  {
    if a != [] {
      var n := |a| - 1;
      LastVarsEqual(a, b);
      hide NumberVars;
      NumberVarsInjective(a[..n], b[..n]);
      assert a == a[..n] + [a[n]] && b == b[..n] + [b[n]];
    }
  }

  lemma RetentionNamesDistinct(policy: RetentionPolicy)
    ensures DistinctVars(RetentionNumbers(policy))
  {
    RetentionNumbersAt(policy);
    var v := RetentionNumbers(policy);
    hide RetentionNumbers;
    assert |v[0].0| == 22 && |v[1].0| == 26 && |v[2].0| == 25 && |v[3].0| == 24 && |v[4].0| == 25 && |v[5].0| == 26;
    assert v[2].0[20] == 'H' && v[4].0[20] == 'W' && v[1].0[10] == 'M' && v[5].0[10] == 'K';
  }

  /** The environment tells two policies apart exactly when they differ in a limit or in an effective
      KeepLast number; an absent KeepLast and one of zeros are the same. */
  lemma RetentionEnvFaithful(p: RetentionPolicy, q: RetentionPolicy)
    ensures RetentionEnv(Some(p)) == RetentionEnv(Some(q)) <==>
      (p.maxAgeDays, p.maxBackupCount, KeepLastOf(p)) == (q.maxAgeDays, q.maxBackupCount, KeepLastOf(q))
  {
    RetentionNumbersAt(p);
    RetentionNumbersAt(q);
    RetentionNamesDistinct(p);
    var (v, w) := (RetentionNumbers(p), RetentionNumbers(q));
    hide RetentionNumbers;
    assert SameVars(v, w);
    if RetentionEnv(Some(p)) == RetentionEnv(Some(q)) {
      NumberVarsInjective(v, w);
    }
    var (x, y) := ((p.maxAgeDays, p.maxBackupCount, KeepLastOf(p)), (q.maxAgeDays, q.maxBackupCount, KeepLastOf(q)));
    assert x == y ==> v == w;
  }

  /** The command is empty exactly when an image is given without a command. */
  lemma BackupCommandEmptyIff(spec: TaskSpec)
    ensures BackupCommand(spec) == "" <==> spec.backupImage != "" && spec.backupCmd == ""
  {
    assert |DEFAULT_COMMAND| > 0;
  }
}
