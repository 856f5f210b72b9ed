/** The generated deep copies, first part: structs without structs inside. A struct that holds only plain
    values, pointers to them and slices of them is a value here, so that assigning it copies the references and
    not what they point to. What a pointer points to is an object, and so is the backing array of a slice; nil
    is null. Values of library types, which the library copies deeply itself, are opaque. A copy shows the same
    value, nil where the source has nil, and reaches new objects only. Cells names the objects a struct
    reaches. */
module DeepCopyStructs {
  import opened Types
  import opened Api

  class Ptr<T> {
    var v: T

    constructor (v: T)
      ensures this.v == v
    {
      this.v := v;
    }
  }

  // ---- pointers to plain values and slices of plain values ----

  function PtrCells<T>(p: Ptr?<T>): set<object> { if p == null then {} else {p} }

  function SliceCells<T>(s: array?<T>): set<object> { if s == null then {} else {s} }

  function PtrView<T>(p: Ptr?<T>): Option<T>
    reads p
  {
    if p == null then None else Some(p.v)
  }

  function SliceView<T>(s: array?<T>): Option<seq<T>>
    reads s
  {
    if s == null then None else Some(s[..])
  }

  method CopyPtr<T>(p: Ptr?<T>) returns (q: Ptr?<T>)
    ensures PtrView(q) == PtrView(p) && fresh(PtrCells(q))
  {
    q := null;
    if p != null {
      q := new Ptr(p.v);
    }
  }

  method CopySlice<T(0)>(s: array?<T>) returns (t: array?<T>)
    ensures SliceView(t) == SliceView(s) && fresh(SliceCells(t))
  {
    t := null;
    if s != null {
      t := new T[s.Length];
      for i := 0 to s.Length
        invariant t[..i] == s[..i]
      {
        t[i] := s[i];
      }
      assert t[..] == s[..];
    }
  }

  /** A value of a Kubernetes library type. */
  datatype Library = Library(encoding: string)

  datatype Header = Header(name: string, value: string)

  // ---- structs without structs inside ----

  datatype RetentionStruct = RetentionStruct(
    maxAgeDays: Ptr?<int32>, maxBackupCount: Ptr?<int32>, keepLast: Ptr?<KeepLast>)

  datatype RetentionView = RetentionView(
    maxAgeDays: Option<int32>, maxBackupCount: Option<int32>, keepLast: Option<KeepLast>)

  function RetentionCells(s: RetentionStruct): set<object> {
    PtrCells(s.maxAgeDays) + PtrCells(s.maxBackupCount) + PtrCells(s.keepLast)
  }

  function ViewRetention(s: RetentionStruct): RetentionView
    reads s.maxAgeDays, s.maxBackupCount, s.keepLast
  {
    RetentionView(PtrView(s.maxAgeDays), PtrView(s.maxBackupCount), PtrView(s.keepLast))
  }

  method CopyRetention(s: RetentionStruct) returns (out: RetentionStruct)
    ensures ViewRetention(out) == ViewRetention(s) && fresh(RetentionCells(out))
  {
    out := s;
    var maxAgeDays := CopyPtr(s.maxAgeDays);
    var maxBackupCount := CopyPtr(s.maxBackupCount);
    var keepLast := CopyPtr(s.keepLast);
    out := out.(maxAgeDays := maxAgeDays, maxBackupCount := maxBackupCount, keepLast := keepLast);
  }

  datatype DatabaseStruct = DatabaseStruct(
    kind: string, host: string, database: string, authSecret: string, enablePITR: bool, port: Ptr?<int32>,
    extraArgs: array?<string>)

  datatype DatabaseView = DatabaseView(
    kind: string, host: string, database: string, authSecret: string, enablePITR: bool, port: Option<int32>,
    extraArgs: Option<seq<string>>)

  function DatabaseCells(s: DatabaseStruct): set<object> {
    PtrCells(s.port) + SliceCells(s.extraArgs)
  }

  function ViewDatabase(s: DatabaseStruct): DatabaseView
    reads s.port, s.extraArgs
  {
    DatabaseView(
      s.kind, s.host, s.database, s.authSecret, s.enablePITR, PtrView(s.port), SliceView(s.extraArgs))
  }

  method CopyDatabase(s: DatabaseStruct) returns (out: DatabaseStruct)
    ensures ViewDatabase(out) == ViewDatabase(s) && fresh(DatabaseCells(out))
  {
    out := s;
    var port := CopyPtr(s.port);
    var extraArgs := CopySlice(s.extraArgs);
    out := out.(port := port, extraArgs := extraArgs);
  }

  datatype ConfigStruct = ConfigStruct(
    labelSelector: Ptr?<Library>, includeNamespaces: array?<string>, excludeNamespaces: array?<string>,
    resourceTypes: array?<string>)

  datatype ConfigView = ConfigView(
    labelSelector: Option<Library>, includeNamespaces: Option<seq<string>>,
    excludeNamespaces: Option<seq<string>>, resourceTypes: Option<seq<string>>)

  function ConfigCells(s: ConfigStruct): set<object> {
    PtrCells(s.labelSelector) + SliceCells(s.includeNamespaces) + SliceCells(s.excludeNamespaces)
    + SliceCells(s.resourceTypes)
  }

  function ViewConfig(s: ConfigStruct): ConfigView
    reads s.labelSelector, s.includeNamespaces, s.excludeNamespaces, s.resourceTypes
  {
    ConfigView(
      PtrView(s.labelSelector), SliceView(s.includeNamespaces), SliceView(s.excludeNamespaces),
      SliceView(s.resourceTypes))
  }

  method CopyConfig(s: ConfigStruct) returns (out: ConfigStruct)
    ensures ViewConfig(out) == ViewConfig(s) && fresh(ConfigCells(out))
  {
    out := s;
    var labelSelector := CopyPtr(s.labelSelector);
    var includeNamespaces := CopySlice(s.includeNamespaces);
    var excludeNamespaces := CopySlice(s.excludeNamespaces);
    var resourceTypes := CopySlice(s.resourceTypes);
    out := out.(
      labelSelector := labelSelector, includeNamespaces := includeNamespaces,
      excludeNamespaces := excludeNamespaces, resourceTypes := resourceTypes);
  }

  datatype PathStruct = PathStruct(path: string, subPath: string, pvcRef: Ptr?<Library>)

  datatype PathView = PathView(path: string, subPath: string, pvcRef: Option<Library>)

  function PathCells(s: PathStruct): set<object> {
    PtrCells(s.pvcRef)
  }

  function ViewPath(s: PathStruct): PathView
    reads s.pvcRef
  {
    PathView(s.path, s.subPath, PtrView(s.pvcRef))
  }

  method CopyPath(s: PathStruct) returns (out: PathStruct)
    ensures ViewPath(out) == ViewPath(s) && fresh(PathCells(out))
  {
    out := s;
    var pvcRef := CopyPtr(s.pvcRef);
    out := out.(pvcRef := pvcRef);
  }

  datatype NfsStruct = NfsStruct(server: string, path: string, subPath: string, mountOptions: array?<string>)

  datatype NfsView = NfsView(server: string, path: string, subPath: string, mountOptions: Option<seq<string>>)

  function NfsCells(s: NfsStruct): set<object> {
    SliceCells(s.mountOptions)
  }

  function ViewNfs(s: NfsStruct): NfsView
    reads s.mountOptions
  {
    NfsView(s.server, s.path, s.subPath, SliceView(s.mountOptions))
  }

  method CopyNfs(s: NfsStruct) returns (out: NfsStruct)
    ensures ViewNfs(out) == ViewNfs(s) && fresh(NfsCells(out))
  {
    out := s;
    var mountOptions := CopySlice(s.mountOptions);
    out := out.(mountOptions := mountOptions);
  }

  datatype S3Struct = S3Struct(
    endpoint: string, bucket: string, prefix: string, region: string, authSecret: string, useTLS: Ptr?<bool>,
    skipTLSVerify: Ptr?<bool>)

  datatype S3View = S3View(
    endpoint: string, bucket: string, prefix: string, region: string, authSecret: string,
    useTLS: Option<bool>, skipTLSVerify: Option<bool>)

  function S3Cells(s: S3Struct): set<object> {
    PtrCells(s.useTLS) + PtrCells(s.skipTLSVerify)
  }

  function ViewS3(s: S3Struct): S3View
    reads s.useTLS, s.skipTLSVerify
  {
    S3View(s.endpoint, s.bucket, s.prefix, s.region, s.authSecret, PtrView(s.useTLS), PtrView(s.skipTLSVerify))
  }

  method CopyS3(s: S3Struct) returns (out: S3Struct)
    ensures ViewS3(out) == ViewS3(s) && fresh(S3Cells(out))
  {
    out := s;
    var useTLS := CopyPtr(s.useTLS);
    var skipTLSVerify := CopyPtr(s.skipTLSVerify);
    out := out.(useTLS := useTLS, skipTLSVerify := skipTLSVerify);
  }

  datatype SftpStruct = SftpStruct(
    host: string, path: string, authSecret: string, sshKeyType: string, port: Ptr?<int32>)

  datatype SftpView = SftpView(
    host: string, path: string, authSecret: string, sshKeyType: string, port: Option<int32>)

  function SftpCells(s: SftpStruct): set<object> {
    PtrCells(s.port)
  }

  function ViewSftp(s: SftpStruct): SftpView
    reads s.port
  {
    SftpView(s.host, s.path, s.authSecret, s.sshKeyType, PtrView(s.port))
  }

  method CopySftp(s: SftpStruct) returns (out: SftpStruct)
    ensures ViewSftp(out) == ViewSftp(s) && fresh(SftpCells(out))
  {
    out := s;
    var port := CopyPtr(s.port);
    out := out.(port := port);
  }

  datatype NfsStorageStruct = NfsStorageStruct(server: string, path: string, mountOptions: array?<string>)

  datatype NfsStorageView = NfsStorageView(server: string, path: string, mountOptions: Option<seq<string>>)

  function NfsStorageCells(s: NfsStorageStruct): set<object> {
    SliceCells(s.mountOptions)
  }

  function ViewNfsStorage(s: NfsStorageStruct): NfsStorageView
    reads s.mountOptions
  {
    NfsStorageView(s.server, s.path, SliceView(s.mountOptions))
  }

  method CopyNfsStorage(s: NfsStorageStruct) returns (out: NfsStorageStruct)
    ensures ViewNfsStorage(out) == ViewNfsStorage(s) && fresh(NfsStorageCells(out))
  {
    out := s;
    var mountOptions := CopySlice(s.mountOptions);
    out := out.(mountOptions := mountOptions);
  }

  datatype EncryptionStruct = EncryptionStruct(
    enabled: bool, algorithm: string, keySecret: string, encryptAfterCompress: Ptr?<bool>)

  datatype EncryptionView = EncryptionView(
    enabled: bool, algorithm: string, keySecret: string, encryptAfterCompress: Option<bool>)

  function EncryptionCells(s: EncryptionStruct): set<object> {
    PtrCells(s.encryptAfterCompress)
  }

  function ViewEncryption(s: EncryptionStruct): EncryptionView
    reads s.encryptAfterCompress
  {
    EncryptionView(s.enabled, s.algorithm, s.keySecret, PtrView(s.encryptAfterCompress))
  }

  method CopyEncryption(s: EncryptionStruct) returns (out: EncryptionStruct)
    ensures ViewEncryption(out) == ViewEncryption(s) && fresh(EncryptionCells(out))
  {
    out := s;
    var encryptAfterCompress := CopyPtr(s.encryptAfterCompress);
    out := out.(encryptAfterCompress := encryptAfterCompress);
  }

  datatype PodTemplateStruct = PodTemplateStruct(metadata: Ptr?<Library>, spec: Ptr?<Library>)

  datatype PodTemplateView = PodTemplateView(metadata: Option<Library>, spec: Option<Library>)

  function PodTemplateCells(s: PodTemplateStruct): set<object> {
    PtrCells(s.metadata) + PtrCells(s.spec)
  }

  function ViewPodTemplate(s: PodTemplateStruct): PodTemplateView
    reads s.metadata, s.spec
  {
    PodTemplateView(PtrView(s.metadata), PtrView(s.spec))
  }

  method CopyPodTemplate(s: PodTemplateStruct) returns (out: PodTemplateStruct)
    ensures ViewPodTemplate(out) == ViewPodTemplate(s) && fresh(PodTemplateCells(out))
  {
    out := s;
    var metadata := CopyPtr(s.metadata);
    var spec := CopyPtr(s.spec);
    out := out.(metadata := metadata, spec := spec);
  }

  datatype ExecStruct = ExecStruct(container: string, command: array?<string>)

  datatype ExecView = ExecView(container: string, command: Option<seq<string>>)

  function ExecCells(s: ExecStruct): set<object> {
    SliceCells(s.command)
  }

  function ViewExec(s: ExecStruct): ExecView
    reads s.command
  {
    ExecView(s.container, SliceView(s.command))
  }

  method CopyExec(s: ExecStruct) returns (out: ExecStruct)
    ensures ViewExec(out) == ViewExec(s) && fresh(ExecCells(out))
  {
    out := s;
    var command := CopySlice(s.command);
    out := out.(command := command);
  }

  datatype HttpStruct = HttpStruct(url: string, httpMethod: string, body: string, headers: array?<Header>)

  datatype HttpView = HttpView(url: string, httpMethod: string, body: string, headers: Option<seq<Header>>)

  function HttpCells(s: HttpStruct): set<object> {
    SliceCells(s.headers)
  }

  function ViewHttp(s: HttpStruct): HttpView
    reads s.headers
  {
    HttpView(s.url, s.httpMethod, s.body, SliceView(s.headers))
  }

  method CopyHttp(s: HttpStruct) returns (out: HttpStruct)
    ensures ViewHttp(out) == ViewHttp(s) && fresh(HttpCells(out))
  {
    out := s;
    var headers := CopySlice(s.headers);
    out := out.(headers := headers);
  }

  datatype MetaStruct = MetaStruct(
    name: string, namespace: string, labels: Ptr?<map<string, string>>,
    annotations: Ptr?<map<string, string>>, deletionTimestamp: Ptr?<Time>, finalizers: array?<string>,
    ownerReferences: array?<Library>)

  datatype MetaView = MetaView(
    name: string, namespace: string, labels: Option<map<string, string>>,
    annotations: Option<map<string, string>>, deletionTimestamp: Option<Time>,
    finalizers: Option<seq<string>>, ownerReferences: Option<seq<Library>>)

  function MetaCells(s: MetaStruct): set<object> {
    PtrCells(s.labels) + PtrCells(s.annotations) + PtrCells(s.deletionTimestamp) + SliceCells(s.finalizers)
    + SliceCells(s.ownerReferences)
  }

  function ViewMeta(s: MetaStruct): MetaView
    reads s.labels, s.annotations, s.deletionTimestamp, s.finalizers, s.ownerReferences
  {
    MetaView(
      s.name, s.namespace, PtrView(s.labels), PtrView(s.annotations), PtrView(s.deletionTimestamp),
      SliceView(s.finalizers), SliceView(s.ownerReferences))
  }

  method CopyMeta(s: MetaStruct) returns (out: MetaStruct)
    ensures ViewMeta(out) == ViewMeta(s) && fresh(MetaCells(out))
  {
    out := s;
    var labels := CopyPtr(s.labels);
    var annotations := CopyPtr(s.annotations);
    var deletionTimestamp := CopyPtr(s.deletionTimestamp);
    var finalizers := CopySlice(s.finalizers);
    var ownerReferences := CopySlice(s.ownerReferences);
    out := out.(
      labels := labels, annotations := annotations, deletionTimestamp := deletionTimestamp,
      finalizers := finalizers, ownerReferences := ownerReferences);
  }

  datatype ListHeaderStruct = ListHeaderStruct(
    resourceVersion: string, continueToken: string, remainingItemCount: Ptr?<int>)

  datatype ListHeaderView = ListHeaderView(
    resourceVersion: string, continueToken: string, remainingItemCount: Option<int>)

  function ListHeaderCells(s: ListHeaderStruct): set<object> {
    PtrCells(s.remainingItemCount)
  }

  function ViewListHeader(s: ListHeaderStruct): ListHeaderView
    reads s.remainingItemCount
  {
    ListHeaderView(s.resourceVersion, s.continueToken, PtrView(s.remainingItemCount))
  }

  method CopyListHeader(s: ListHeaderStruct) returns (out: ListHeaderStruct)
    ensures ViewListHeader(out) == ViewListHeader(s) && fresh(ListHeaderCells(out))
  {
    out := s;
    var remainingItemCount := CopyPtr(s.remainingItemCount);
    out := out.(remainingItemCount := remainingItemCount);
  }

  datatype StatusStruct = StatusStruct(
    observedGeneration: int, phase: Phase, backupHistoryCount: int32, lastScheduledTime: Ptr?<Time>,
    lastSuccessfulTime: Ptr?<Time>, lastCompletionTime: Ptr?<Time>, nextScheduleTime: Ptr?<Time>,
    activeBackupJob: Ptr?<JobRef>, conditions: array?<Condition>)

  datatype StatusView = StatusView(
    observedGeneration: int, phase: Phase, backupHistoryCount: int32, lastScheduledTime: Option<Time>,
    lastSuccessfulTime: Option<Time>, lastCompletionTime: Option<Time>, nextScheduleTime: Option<Time>,
    activeBackupJob: Option<JobRef>, conditions: Option<seq<Condition>>)

  function StatusCells(s: StatusStruct): set<object> {
    PtrCells(s.lastScheduledTime) + PtrCells(s.lastSuccessfulTime) + PtrCells(s.lastCompletionTime)
    + PtrCells(s.nextScheduleTime) + PtrCells(s.activeBackupJob) + SliceCells(s.conditions)
  }

  function ViewStatus(s: StatusStruct): StatusView
    reads s.lastScheduledTime, s.lastSuccessfulTime, s.lastCompletionTime, s.nextScheduleTime,
          s.activeBackupJob, s.conditions
  {
    StatusView(
      s.observedGeneration, s.phase, s.backupHistoryCount, PtrView(s.lastScheduledTime),
      PtrView(s.lastSuccessfulTime), PtrView(s.lastCompletionTime), PtrView(s.nextScheduleTime),
      PtrView(s.activeBackupJob), SliceView(s.conditions))
  }

  method CopyTimes(s: StatusStruct)
      returns (scheduled: Ptr?<Time>, successful: Ptr?<Time>, completion: Ptr?<Time>, next: Ptr?<Time>)
    ensures PtrView(scheduled) == PtrView(s.lastScheduledTime) && fresh(PtrCells(scheduled))
    ensures PtrView(successful) == PtrView(s.lastSuccessfulTime) && fresh(PtrCells(successful))
    ensures PtrView(completion) == PtrView(s.lastCompletionTime) && fresh(PtrCells(completion))
    ensures PtrView(next) == PtrView(s.nextScheduleTime) && fresh(PtrCells(next))
  {
    scheduled := CopyPtr(s.lastScheduledTime);
    successful := CopyPtr(s.lastSuccessfulTime);
    completion := CopyPtr(s.lastCompletionTime);
    next := CopyPtr(s.nextScheduleTime);
  }

  method CopyStatus(s: StatusStruct) returns (out: StatusStruct)
    ensures ViewStatus(out) == ViewStatus(s) && fresh(StatusCells(out))
  {
    out := s;
    var scheduled, successful, completion, next := CopyTimes(s);
    var job := CopyPtr(s.activeBackupJob);
    var conditions := CopySlice(s.conditions);
    out := out.(lastScheduledTime := scheduled, lastSuccessfulTime := successful, lastCompletionTime := completion,
                nextScheduleTime := next, activeBackupJob := job, conditions := conditions);
  }

  // ---- directories ----

  ghost function PathElementCells(s: array<PathStruct>): set<object>
    reads s
  {
    set i, o | 0 <= i < s.Length && o in PathCells(s[i]) :: o
  }

  ghost function PathsCells(s: array?<PathStruct>): set<object>
    reads s
  {
    if s == null then {} else {s} + PathElementCells(s)
  }

  ghost function PathViews(s: array<PathStruct>): seq<PathView>
    reads PathsCells(s)
  {
    seq(s.Length, i requires 0 <= i < s.Length reads PathsCells(s) =>
      assert forall o :: o in PathCells(s[i]) ==> o in PathElementCells(s);
      ViewPath(s[i]))
  }

  method CopyPaths(s: array?<PathStruct>) returns (t: array?<PathStruct>)
    ensures (s == null <==> t == null) && (s != null ==> PathViews(t) == PathViews(s))
    ensures fresh(PathsCells(t))
  {
    t := null;
    if s != null {
      t := new PathStruct[s.Length](_ => PathStruct("", "", null));
      for i := 0 to s.Length
        invariant fresh(t)
        invariant forall j :: 0 <= j < i ==>
          ViewPath(t[j]) == ViewPath(s[j]) && fresh(PathCells(t[j])) && t !in PathCells(t[j])
      {
        var copy := CopyPath(s[i]);
        t[i] := copy;
      }
    }
  }

  datatype DirectoryStruct = DirectoryStruct(
    paths: array?<PathStruct>, excludePatterns: array?<string>, compressionLevel: Ptr?<int32>)

  datatype DirectoryView = DirectoryView(
    paths: Option<seq<PathView>>, excludePatterns: Option<seq<string>>, compressionLevel: Option<int32>)

  ghost function DirectoryCells(s: DirectoryStruct): set<object>
    reads s.paths
  {
    PathsCells(s.paths) + SliceCells(s.excludePatterns) + PtrCells(s.compressionLevel)
  }

  ghost function ViewDirectory(s: DirectoryStruct): DirectoryView
    reads DirectoryCells(s)
  {
    DirectoryView(if s.paths == null then None else Some(PathViews(s.paths)),
                  SliceView(s.excludePatterns), PtrView(s.compressionLevel))
  }

  method CopyDirectory(s: DirectoryStruct) returns (out: DirectoryStruct)
    ensures ViewDirectory(out) == ViewDirectory(s) && fresh(DirectoryCells(out))
  {
    out := s;
    var excludePatterns := CopySlice(s.excludePatterns);
    var compressionLevel := CopyPtr(s.compressionLevel);
    var paths := CopyPaths(s.paths);
    out := out.(paths := paths, excludePatterns := excludePatterns, compressionLevel := compressionLevel);
  }
}
