/** The generated deep copies, third part: structs that hold structs, and the slices of them, up to the task
    list. A struct's references are grouped, so that a copy proceeds group by group. */
module DeepCopy {
  import opened Types
  import opened Api
  import opened DeepCopyStructs
  import opened DeepCopyObjects

  /** The parts of a target, in two groups. */
  datatype Services = Services(database: DatabaseBackupSpec?, config: ConfigBackupSpec?)

  datatype ServicesView = ServicesView(database: Option<DatabaseView>, config: Option<ConfigView>)

  /** These parts are valid within s and show this value. */
  ghost predicate ServicesIn(p: Services, view: ServicesView, s: set<object>)
    reads s
  {
    && (p.database == null <==> view.database.None?)
    && (p.database != null ==>
          && p.database in s && p.database.repr <= s && p.database.Valid()
          && view.database == Some(p.database.view))
    && (p.config == null <==> view.config.None?)
    && (p.config != null ==>
          && p.config in s && p.config.repr <= s && p.config.Valid()
          && view.config == Some(p.config.view))
  }

  lemma ServicesGrow(p: Services, view: ServicesView, s: set<object>, s': set<object>)
    requires ServicesIn(p, view, s) && s <= s'
    ensures ServicesIn(p, view, s')
  {
  }

  method CopyServices(p: Services, ghost view: ServicesView, ghost s: set<object>)
    returns (q: Services, ghost cells: set<object>)
    requires ServicesIn(p, view, s)
    ensures ServicesIn(q, view, cells) && fresh(cells)
  {
    hide DatabaseBackupSpec.Valid, ConfigBackupSpec.Valid;
    var database := CopyDatabaseBackupSpec(p.database);
    var config := CopyConfigBackupSpec(p.config);
    q := Services(database, config);
    cells := (if database == null then {} else database.repr) + (if config == null then {} else config.repr);
  }

  datatype Files = Files(directory: DirectoryBackupSpec?, nfs: NfsBackupSpec?)

  datatype FilesView = FilesView(directory: Option<DirectoryView>, nfs: Option<NfsView>)

  /** These parts are valid within s and show this value. */
  ghost predicate FilesIn(p: Files, view: FilesView, s: set<object>)
    reads s
  {
    && (p.directory == null <==> view.directory.None?)
    && (p.directory != null ==>
          && p.directory in s && p.directory.repr <= s && p.directory.Valid()
          && view.directory == Some(p.directory.view))
    && (p.nfs == null <==> view.nfs.None?)
    && (p.nfs != null ==>
          && p.nfs in s && p.nfs.repr <= s && p.nfs.Valid()
          && view.nfs == Some(p.nfs.view))
  }

  lemma FilesGrow(p: Files, view: FilesView, s: set<object>, s': set<object>)
    requires FilesIn(p, view, s) && s <= s'
    ensures FilesIn(p, view, s')
  {
  }

  method CopyFiles(p: Files, ghost view: FilesView, ghost s: set<object>)
    returns (q: Files, ghost cells: set<object>)
    requires FilesIn(p, view, s)
    ensures FilesIn(q, view, cells) && fresh(cells)
  {
    hide DirectoryBackupSpec.Valid, NfsBackupSpec.Valid;
    var directory := CopyDirectoryBackupSpec(p.directory);
    var nfs := CopyNfsBackupSpec(p.nfs);
    q := Files(directory, nfs);
    cells := (if directory == null then {} else directory.repr) + (if nfs == null then {} else nfs.repr);
  }

  datatype TargetStruct = TargetStruct(name: string, kind: string, services: Services, files: Files)

  datatype TargetView = TargetView(name: string, kind: string, services: ServicesView, files: FilesView)

  class BackupTarget {
    var v: TargetStruct
    ghost var view: TargetView
    ghost var repr: set<object>

    ghost predicate Valid()
      reads this, repr
    {
      && this in repr
      && view.name == v.name
      && view.kind == v.kind
      && ServicesIn(v.services, view.services, repr)
      && FilesIn(v.files, view.files, repr)
    }

    constructor ()
      ensures Valid() && this in repr && fresh(repr)
    {
      v := TargetStruct("", "", Services(null, null), Files(null, null));
      view := TargetView("", "", ServicesView(None, None), FilesView(None, None));
      repr := {this};
    }

    method DeepCopyInto(out: BackupTarget)
      requires Valid() && out !in repr
      modifies out
      ensures out.Valid() && out in out.repr && fresh(out.repr - {out})
      ensures out.view == old(view) && Valid() && view == old(view)
    {
      hide ServicesIn, FilesIn;
      ghost var was := view;
      var copy := v;
      var services, servicesCells := CopyServices(v.services, view.services, repr);
      var files, filesCells := CopyFiles(v.files, view.files, repr);
      copy := copy.(services := services, files := files);
      out.v, out.view := copy, was;
      out.repr := {out} + servicesCells + filesCells;
      ServicesGrow(services, was.services, servicesCells, out.repr);
      FilesGrow(files, was.files, filesCells, out.repr);
    }
  }

  /** The backing array of a slice of BackupTarget structs. */
  class TargetSlice {
    var items: seq<BackupTarget>
    ghost var view: seq<TargetView>
    ghost var repr: set<object>

    ghost predicate Valid()
      reads this, repr
    {
      && this in repr && |view| == |items|
      && (forall i :: 0 <= i < |items| ==> items[i] in repr && items[i].repr <= repr && items[i].Valid())
      && (forall i :: 0 <= i < |items| ==> view[i] == items[i].view)
    }

    constructor (elements: seq<BackupTarget>, ghost values: seq<TargetView>, ghost cells: set<object>)
      requires |values| == |elements|
      requires forall i :: 0 <= i < |elements| ==>
        && elements[i] in cells && elements[i].repr <= cells && elements[i].Valid()
        && values[i] == elements[i].view
      ensures Valid() && items == elements && view == values && repr == {this} + cells
    {
      items, view := elements, values;
      repr := {this} + cells;
    }
  }

  method CopyTargetSlice(s: TargetSlice?) returns (t: TargetSlice?)
    requires s != null ==> s.Valid()
    ensures s == null <==> t == null
    ensures t != null ==> t.Valid() && t.view == s.view && t in t.repr && fresh(t.repr)
    ensures t != null ==> forall j, k :: 0 <= j < k < |t.items| ==> t.items[j].repr !! t.items[k].repr
  {
    hide BackupTarget.Valid;
    t := null;
    if s != null {
      var copies: seq<BackupTarget> := [];
      ghost var cells: set<object> := {};
      for i := 0 to |s.items|
        invariant |copies| == i && fresh(cells)
        invariant forall j :: 0 <= j < |s.items| ==> s.items[j].Valid() && s.items[j].view == s.view[j]
        invariant forall j :: 0 <= j < i ==> copies[j] in cells && copies[j].repr <= cells && copies[j].Valid()
        invariant forall j :: 0 <= j < i ==> copies[j].view == s.view[j]
        invariant forall j, k :: 0 <= j < k < i ==> copies[j].repr !! copies[k].repr
      {
        var copy := new BackupTarget();
        s.items[i].DeepCopyInto(copy);
        copies, cells := copies + [copy], cells + copy.repr;
      }
      t := new TargetSlice(copies, s.view, cells);
    }
  }

  /** The parts of a hook, in two groups. */
  datatype Actions = Actions(exec: ExecHook?, http: HttpHook?)

  datatype ActionsView = ActionsView(exec: Option<ExecView>, http: Option<HttpView>)

  /** These parts are valid within s and show this value. */
  ghost predicate ActionsIn(p: Actions, view: ActionsView, s: set<object>)
    reads s
  {
    && (p.exec == null <==> view.exec.None?)
    && (p.exec != null ==>
          && p.exec in s && p.exec.repr <= s && p.exec.Valid()
          && view.exec == Some(p.exec.view))
    && (p.http == null <==> view.http.None?)
    && (p.http != null ==>
          && p.http in s && p.http.repr <= s && p.http.Valid()
          && view.http == Some(p.http.view))
  }

  lemma ActionsGrow(p: Actions, view: ActionsView, s: set<object>, s': set<object>)
    requires ActionsIn(p, view, s) && s <= s'
    ensures ActionsIn(p, view, s')
  {
  }

  method CopyActions(p: Actions, ghost view: ActionsView, ghost s: set<object>)
    returns (q: Actions, ghost cells: set<object>)
    requires ActionsIn(p, view, s)
    ensures ActionsIn(q, view, cells) && fresh(cells)
  {
    hide ExecHook.Valid, HttpHook.Valid;
    var exec := CopyExecHook(p.exec);
    var http := CopyHttpHook(p.http);
    q := Actions(exec, http);
    cells := (if exec == null then {} else exec.repr) + (if http == null then {} else http.repr);
  }

  datatype Timeout = Timeout(timeoutSeconds: Ptr?<int32>)

  datatype TimeoutView = TimeoutView(timeoutSeconds: Option<int32>)

  /** These parts are valid within s and show this value. */
  ghost predicate TimeoutIn(p: Timeout, view: TimeoutView, s: set<object>)
    reads s
  {
    && PtrCells(p.timeoutSeconds) <= s && view.timeoutSeconds == PtrView(p.timeoutSeconds)
  }

  lemma TimeoutGrow(p: Timeout, view: TimeoutView, s: set<object>, s': set<object>)
    requires TimeoutIn(p, view, s) && s <= s'
    ensures TimeoutIn(p, view, s')
  {
  }

  method CopyTimeout(p: Timeout, ghost view: TimeoutView, ghost s: set<object>)
    returns (q: Timeout, ghost cells: set<object>)
    requires TimeoutIn(p, view, s)
    ensures TimeoutIn(q, view, cells) && fresh(cells)
  {
    var timeoutSeconds := CopyPtr(p.timeoutSeconds);
    q := Timeout(timeoutSeconds);
    cells := PtrCells(timeoutSeconds);
  }

  datatype HookStruct = HookStruct(kind: string, actions: Actions, timeout: Timeout)

  datatype HookView = HookView(kind: string, actions: ActionsView, timeout: TimeoutView)

  class HookSpec {
    var v: HookStruct
    ghost var view: HookView
    ghost var repr: set<object>

    ghost predicate Valid()
      reads this, repr
    {
      && this in repr
      && view.kind == v.kind
      && ActionsIn(v.actions, view.actions, repr)
      && TimeoutIn(v.timeout, view.timeout, repr)
    }

    constructor ()
      ensures Valid() && this in repr && fresh(repr)
    {
      v := HookStruct("", Actions(null, null), Timeout(null));
      view := HookView("", ActionsView(None, None), TimeoutView(None));
      repr := {this};
    }

    method DeepCopyInto(out: HookSpec)
      requires Valid() && out !in repr
      modifies out
      ensures out.Valid() && out in out.repr && fresh(out.repr - {out})
      ensures out.view == old(view) && Valid() && view == old(view)
    {
      hide ActionsIn, TimeoutIn;
      ghost var was := view;
      var copy := v;
      var actions, actionsCells := CopyActions(v.actions, view.actions, repr);
      var timeout, timeoutCells := CopyTimeout(v.timeout, view.timeout, repr);
      copy := copy.(actions := actions, timeout := timeout);
      out.v, out.view := copy, was;
      out.repr := {out} + actionsCells + timeoutCells;
      ActionsGrow(actions, was.actions, actionsCells, out.repr);
      TimeoutGrow(timeout, was.timeout, timeoutCells, out.repr);
    }
  }

  /** The backing array of a slice of HookSpec structs. */
  class HookSlice {
    var items: seq<HookSpec>
    ghost var view: seq<HookView>
    ghost var repr: set<object>

    ghost predicate Valid()
      reads this, repr
    {
      && this in repr && |view| == |items|
      && (forall i :: 0 <= i < |items| ==> items[i] in repr && items[i].repr <= repr && items[i].Valid())
      && (forall i :: 0 <= i < |items| ==> view[i] == items[i].view)
    }

    constructor (elements: seq<HookSpec>, ghost values: seq<HookView>, ghost cells: set<object>)
      requires |values| == |elements|
      requires forall i :: 0 <= i < |elements| ==>
        && elements[i] in cells && elements[i].repr <= cells && elements[i].Valid()
        && values[i] == elements[i].view
      ensures Valid() && items == elements && view == values && repr == {this} + cells
    {
      items, view := elements, values;
      repr := {this} + cells;
    }
  }

  method CopyHookSlice(s: HookSlice?) returns (t: HookSlice?)
    requires s != null ==> s.Valid()
    ensures s == null <==> t == null
    ensures t != null ==> t.Valid() && t.view == s.view && t in t.repr && fresh(t.repr)
    ensures t != null ==> forall j, k :: 0 <= j < k < |t.items| ==> t.items[j].repr !! t.items[k].repr
  {
    hide HookSpec.Valid;
    t := null;
    if s != null {
      var copies: seq<HookSpec> := [];
      ghost var cells: set<object> := {};
      for i := 0 to |s.items|
        invariant |copies| == i && fresh(cells)
        invariant forall j :: 0 <= j < |s.items| ==> s.items[j].Valid() && s.items[j].view == s.view[j]
        invariant forall j :: 0 <= j < i ==> copies[j] in cells && copies[j].repr <= cells && copies[j].Valid()
        invariant forall j :: 0 <= j < i ==> copies[j].view == s.view[j]
        invariant forall j, k :: 0 <= j < k < i ==> copies[j].repr !! copies[k].repr
      {
        var copy := new HookSpec();
        s.items[i].DeepCopyInto(copy);
        copies, cells := copies + [copy], cells + copy.repr;
      }
      t := new HookSlice(copies, s.view, cells);
    }
  }

  /** The parts of a remote storage, in two groups. */
  datatype Hosts = Hosts(s3: S3StorageSpec?, sftp: SftpStorageSpec?)

  datatype HostsView = HostsView(s3: Option<S3View>, sftp: Option<SftpView>)

  /** These parts are valid within s and show this value. */
  ghost predicate HostsIn(p: Hosts, view: HostsView, s: set<object>)
    reads s
  {
    && (p.s3 == null <==> view.s3.None?)
    && (p.s3 != null ==>
          && p.s3 in s && p.s3.repr <= s && p.s3.Valid()
          && view.s3 == Some(p.s3.view))
    && (p.sftp == null <==> view.sftp.None?)
    && (p.sftp != null ==>
          && p.sftp in s && p.sftp.repr <= s && p.sftp.Valid()
          && view.sftp == Some(p.sftp.view))
  }

  lemma HostsGrow(p: Hosts, view: HostsView, s: set<object>, s': set<object>)
    requires HostsIn(p, view, s) && s <= s'
    ensures HostsIn(p, view, s')
  {
  }

  method CopyHosts(p: Hosts, ghost view: HostsView, ghost s: set<object>)
    returns (q: Hosts, ghost cells: set<object>)
    requires HostsIn(p, view, s)
    ensures HostsIn(q, view, cells) && fresh(cells)
  {
    hide S3StorageSpec.Valid, SftpStorageSpec.Valid;
    var s3 := CopyS3StorageSpec(p.s3);
    var sftp := CopySftpStorageSpec(p.sftp);
    q := Hosts(s3, sftp);
    cells := (if s3 == null then {} else s3.repr) + (if sftp == null then {} else sftp.repr);
  }

  datatype Shares = Shares(nfs: NfsStorageSpec?, smb: SmbStorageSpec?)

  datatype SharesView = SharesView(nfs: Option<NfsStorageView>, smb: Option<SmbStruct>)

  /** These parts are valid within s and show this value. */
  ghost predicate SharesIn(p: Shares, view: SharesView, s: set<object>)
    reads s
  {
    && (p.nfs == null <==> view.nfs.None?)
    && (p.nfs != null ==>
          && p.nfs in s && p.nfs.repr <= s && p.nfs.Valid()
          && view.nfs == Some(p.nfs.view))
    && (p.smb == null <==> view.smb.None?)
    && (p.smb != null ==>
          && p.smb in s && p.smb.repr <= s && p.smb.Valid()
          && view.smb == Some(p.smb.view))
  }

  lemma SharesGrow(p: Shares, view: SharesView, s: set<object>, s': set<object>)
    requires SharesIn(p, view, s) && s <= s'
    ensures SharesIn(p, view, s')
  {
  }

  method CopyShares(p: Shares, ghost view: SharesView, ghost s: set<object>)
    returns (q: Shares, ghost cells: set<object>)
    requires SharesIn(p, view, s)
    ensures SharesIn(q, view, cells) && fresh(cells)
  {
    hide NfsStorageSpec.Valid, SmbStorageSpec.Valid;
    var nfs := CopyNfsStorageSpec(p.nfs);
    var smb := CopySmbStorageSpec(p.smb);
    q := Shares(nfs, smb);
    cells := (if nfs == null then {} else nfs.repr) + (if smb == null then {} else smb.repr);
  }

  datatype StorageStruct = StorageStruct(kind: string, hosts: Hosts, shares: Shares)

  datatype StorageView = StorageView(kind: string, hosts: HostsView, shares: SharesView)

  class RemoteStorageSpec {
    var v: StorageStruct
    ghost var view: StorageView
    ghost var repr: set<object>

    ghost predicate Valid()
      reads this, repr
    {
      && this in repr
      && view.kind == v.kind
      && HostsIn(v.hosts, view.hosts, repr)
      && SharesIn(v.shares, view.shares, repr)
    }

    constructor ()
      ensures Valid() && this in repr && fresh(repr)
    {
      v := StorageStruct("", Hosts(null, null), Shares(null, null));
      view := StorageView("", HostsView(None, None), SharesView(None, None));
      repr := {this};
    }

    method DeepCopyInto(out: RemoteStorageSpec)
      requires Valid() && out !in repr
      modifies out
      ensures out.Valid() && out in out.repr && fresh(out.repr - {out})
      ensures out.view == old(view) && Valid() && view == old(view)
    {
      hide HostsIn, SharesIn;
      ghost var was := view;
      var copy := v;
      var hosts, hostsCells := CopyHosts(v.hosts, view.hosts, repr);
      var shares, sharesCells := CopyShares(v.shares, view.shares, repr);
      copy := copy.(hosts := hosts, shares := shares);
      out.v, out.view := copy, was;
      out.repr := {out} + hostsCells + sharesCells;
      HostsGrow(hosts, was.hosts, hostsCells, out.repr);
      SharesGrow(shares, was.shares, sharesCells, out.repr);
    }
  }

  method CopyRemoteStorageSpec(p: RemoteStorageSpec) returns (q: RemoteStorageSpec)
    requires p.Valid()
    ensures q.Valid() && q.view == p.view && q in q.repr && fresh(q.repr)
  {
    hide RemoteStorageSpec.Valid;
    q := new RemoteStorageSpec();
    p.DeepCopyInto(q);
  }

  /** The parts of a specification, in two groups; the remote storage is embedded. */
  datatype Work = Work(targets: TargetSlice?, postBackupHooks: HookSlice?, remoteStorage: RemoteStorageSpec)

  datatype WorkView = WorkView(
    targets: Option<seq<TargetView>>, postBackupHooks: Option<seq<HookView>>, remoteStorage: StorageView)

  /** These parts are valid within s and show this value. */
  ghost predicate WorkIn(p: Work, view: WorkView, s: set<object>)
    reads s
  {
    && (p.targets == null <==> view.targets.None?)
    && (p.targets != null ==>
          && p.targets in s && p.targets.repr <= s && p.targets.Valid()
          && view.targets == Some(p.targets.view))
    && (p.postBackupHooks == null <==> view.postBackupHooks.None?)
    && (p.postBackupHooks != null ==>
          && p.postBackupHooks in s && p.postBackupHooks.repr <= s && p.postBackupHooks.Valid()
          && view.postBackupHooks == Some(p.postBackupHooks.view))
    && p.remoteStorage in s && p.remoteStorage.repr <= s && p.remoteStorage.Valid()
    && view.remoteStorage == p.remoteStorage.view
  }

  lemma WorkGrow(p: Work, view: WorkView, s: set<object>, s': set<object>)
    requires WorkIn(p, view, s) && s <= s'
    ensures WorkIn(p, view, s')
  {
  }

  method CopyWork(p: Work, ghost view: WorkView, ghost s: set<object>)
    returns (q: Work, ghost cells: set<object>)
    requires WorkIn(p, view, s)
    ensures WorkIn(q, view, cells) && fresh(cells)
  {
    hide TargetSlice.Valid, HookSlice.Valid, RemoteStorageSpec.Valid;
    var targets := CopyTargetSlice(p.targets);
    var postBackupHooks := CopyHookSlice(p.postBackupHooks);
    var remoteStorage := CopyRemoteStorageSpec(p.remoteStorage);
    q := Work(targets, postBackupHooks, remoteStorage);
    cells := (if targets == null then {} else targets.repr)
      + (if postBackupHooks == null then {} else postBackupHooks.repr) + remoteStorage.repr;
  }

  datatype Settings = Settings(
    retention: RetentionPolicySpec?, encryption: EncryptionSpec?, podTemplate: PodTemplateSpec?,
    resources: ResourceRequirements?)

  datatype SettingsView = SettingsView(
    retention: Option<RetentionView>, encryption: Option<EncryptionView>,
    podTemplate: Option<PodTemplateView>, resources: Option<Library>)

  /** These parts are valid within s and show this value. */
  ghost predicate SettingsIn(p: Settings, view: SettingsView, s: set<object>)
    reads s
  {
    && (p.retention == null <==> view.retention.None?)
    && (p.retention != null ==>
          && p.retention in s && p.retention.repr <= s && p.retention.Valid()
          && view.retention == Some(p.retention.view))
    && (p.encryption == null <==> view.encryption.None?)
    && (p.encryption != null ==>
          && p.encryption in s && p.encryption.repr <= s && p.encryption.Valid()
          && view.encryption == Some(p.encryption.view))
    && (p.podTemplate == null <==> view.podTemplate.None?)
    && (p.podTemplate != null ==>
          && p.podTemplate in s && p.podTemplate.repr <= s && p.podTemplate.Valid()
          && view.podTemplate == Some(p.podTemplate.view))
    && (p.resources == null <==> view.resources.None?)
    && (p.resources != null ==>
          && p.resources in s && p.resources.repr <= s && p.resources.Valid()
          && view.resources == Some(p.resources.view))
  }

  lemma SettingsGrow(p: Settings, view: SettingsView, s: set<object>, s': set<object>)
    requires SettingsIn(p, view, s) && s <= s'
    ensures SettingsIn(p, view, s')
  {
  }

  method CopySettings(p: Settings, ghost view: SettingsView, ghost s: set<object>)
    returns (q: Settings, ghost cells: set<object>)
    requires SettingsIn(p, view, s)
    ensures SettingsIn(q, view, cells) && fresh(cells)
  {
    hide RetentionPolicySpec.Valid, EncryptionSpec.Valid, PodTemplateSpec.Valid, ResourceRequirements.Valid;
    var retention := CopyRetentionPolicySpec(p.retention);
    var encryption := CopyEncryptionSpec(p.encryption);
    var podTemplate := CopyPodTemplateSpec(p.podTemplate);
    var resources := CopyResourceRequirements(p.resources);
    q := Settings(retention, encryption, podTemplate, resources);
    cells := (if retention == null then {} else retention.repr) + (if encryption == null then {} else encryption.repr)
      + (if podTemplate == null then {} else podTemplate.repr)
      + (if resources == null then {} else resources.repr);
  }

  datatype SpecStruct = SpecStruct(
    schedule: string, backupImage: string, backupCmd: string, work: Work, settings: Settings)

  datatype SpecView = SpecView(
    schedule: string, backupImage: string, backupCmd: string, work: WorkView, settings: SettingsView)

  class BackupTaskSpec {
    var v: SpecStruct
    ghost var view: SpecView
    ghost var repr: set<object>

    ghost predicate Valid()
      reads this, repr
    {
      && this in repr
      && view.schedule == v.schedule
      && view.backupImage == v.backupImage
      && view.backupCmd == v.backupCmd
      && WorkIn(v.work, view.work, repr)
      && SettingsIn(v.settings, view.settings, repr)
    }

    constructor ()
      ensures Valid() && this in repr && fresh(repr)
    {
      hide RemoteStorageSpec.Valid;
      var remoteStorage := new RemoteStorageSpec();
      v := SpecStruct("", "", "", Work(null, null, remoteStorage), Settings(null, null, null, null));
      view := SpecView("", "", "", WorkView(None, None, remoteStorage.view), SettingsView(None, None, None, None));
      repr := {this} + remoteStorage.repr;
    }

    method DeepCopyInto(out: BackupTaskSpec)
      requires Valid() && out !in repr
      modifies out
      ensures out.Valid() && out in out.repr && fresh(out.repr - {out})
      ensures out.view == old(view) && Valid() && view == old(view)
    {
      hide WorkIn, SettingsIn;
      ghost var was := view;
      var copy := v;
      var work, workCells := CopyWork(v.work, view.work, repr);
      var settings, settingsCells := CopySettings(v.settings, view.settings, repr);
      copy := copy.(work := work, settings := settings);
      out.v, out.view := copy, was;
      out.repr := {out} + workCells + settingsCells;
      WorkGrow(work, was.work, workCells, out.repr);
      SettingsGrow(settings, was.settings, settingsCells, out.repr);
    }
  }

  method CopyBackupTaskSpec(p: BackupTaskSpec) returns (q: BackupTaskSpec)
    requires p.Valid()
    ensures q.Valid() && q.view == p.view && q in q.repr && fresh(q.repr)
  {
    hide BackupTaskSpec.Valid;
    q := new BackupTaskSpec();
    p.DeepCopyInto(q);
  }

  /** The parts of a task, all embedded. */
  datatype Parts = Parts(metadata: ObjectMeta, spec: BackupTaskSpec, status: BackupTaskStatus)

  datatype PartsView = PartsView(metadata: MetaView, spec: SpecView, status: StatusView)

  /** These parts are valid within s and show this value. */
  ghost predicate PartsIn(p: Parts, view: PartsView, s: set<object>)
    reads s
  {
    && p.metadata in s && p.metadata.repr <= s && p.metadata.Valid()
    && view.metadata == p.metadata.view
    && p.spec in s && p.spec.repr <= s && p.spec.Valid()
    && view.spec == p.spec.view
    && p.status in s && p.status.repr <= s && p.status.Valid()
    && view.status == p.status.view
  }

  lemma PartsGrow(p: Parts, view: PartsView, s: set<object>, s': set<object>)
    requires PartsIn(p, view, s) && s <= s'
    ensures PartsIn(p, view, s')
  {
  }

  method CopyParts(p: Parts, ghost view: PartsView, ghost s: set<object>)
    returns (q: Parts, ghost cells: set<object>)
    requires PartsIn(p, view, s)
    ensures PartsIn(q, view, cells) && fresh(cells)
  {
    hide ObjectMeta.Valid, BackupTaskSpec.Valid, BackupTaskStatus.Valid;
    var metadata := CopyObjectMeta(p.metadata);
    var spec := CopyBackupTaskSpec(p.spec);
    var status := CopyBackupTaskStatus(p.status);
    q := Parts(metadata, spec, status);
    cells := metadata.repr + spec.repr + status.repr;
  }

  datatype TaskStruct = TaskStruct(parts: Parts)

  datatype TaskView = TaskView(parts: PartsView)

  class BackupTask {
    var v: TaskStruct
    ghost var view: TaskView
    ghost var repr: set<object>

    ghost predicate Valid()
      reads this, repr
    {
      && this in repr
      && PartsIn(v.parts, view.parts, repr)
    }

    constructor ()
      ensures Valid() && this in repr && fresh(repr)
    {
      hide ObjectMeta.Valid, BackupTaskSpec.Valid, BackupTaskStatus.Valid;
      var metadata := new ObjectMeta(MetaStruct("", "", null, null, null, null, null));
      var spec := new BackupTaskSpec();
      var status := new BackupTaskStatus(StatusStruct(0, NoPhase, 0, null, null, null, null, null, null));
      v := TaskStruct(Parts(metadata, spec, status));
      view := TaskView(PartsView(metadata.view, spec.view, status.view));
      repr := {this} + metadata.repr + spec.repr + status.repr;
    }

    method DeepCopyInto(out: BackupTask)
      requires Valid() && out !in repr
      modifies out
      ensures out.Valid() && out in out.repr && fresh(out.repr - {out})
      ensures out.view == old(view) && Valid() && view == old(view)
    {
      hide PartsIn;
      ghost var was := view;
      var copy := v;
      var parts, partsCells := CopyParts(v.parts, view.parts, repr);
      copy := copy.(parts := parts);
      out.v, out.view := copy, was;
      out.repr := {out} + partsCells;
      PartsGrow(parts, was.parts, partsCells, out.repr);
    }
  }

  /** The backing array of a slice of BackupTask structs. */
  class TaskSlice {
    var items: seq<BackupTask>
    ghost var view: seq<TaskView>
    ghost var repr: set<object>

    ghost predicate Valid()
      reads this, repr
    {
      && this in repr && |view| == |items|
      && (forall i :: 0 <= i < |items| ==> items[i] in repr && items[i].repr <= repr && items[i].Valid())
      && (forall i :: 0 <= i < |items| ==> view[i] == items[i].view)
    }

    constructor (elements: seq<BackupTask>, ghost values: seq<TaskView>, ghost cells: set<object>)
      requires |values| == |elements|
      requires forall i :: 0 <= i < |elements| ==>
        && elements[i] in cells && elements[i].repr <= cells && elements[i].Valid()
        && values[i] == elements[i].view
      ensures Valid() && items == elements && view == values && repr == {this} + cells
    {
      items, view := elements, values;
      repr := {this} + cells;
    }
  }

  method CopyTaskSlice(s: TaskSlice?) returns (t: TaskSlice?)
    requires s != null ==> s.Valid()
    ensures s == null <==> t == null
    ensures t != null ==> t.Valid() && t.view == s.view && t in t.repr && fresh(t.repr)
    ensures t != null ==> forall j, k :: 0 <= j < k < |t.items| ==> t.items[j].repr !! t.items[k].repr
  {
    hide BackupTask.Valid;
    t := null;
    if s != null {
      var copies: seq<BackupTask> := [];
      ghost var cells: set<object> := {};
      for i := 0 to |s.items|
        invariant |copies| == i && fresh(cells)
        invariant forall j :: 0 <= j < |s.items| ==> s.items[j].Valid() && s.items[j].view == s.view[j]
        invariant forall j :: 0 <= j < i ==> copies[j] in cells && copies[j].repr <= cells && copies[j].Valid()
        invariant forall j :: 0 <= j < i ==> copies[j].view == s.view[j]
        invariant forall j, k :: 0 <= j < k < i ==> copies[j].repr !! copies[k].repr
      {
        var copy := new BackupTask();
        s.items[i].DeepCopyInto(copy);
        copies, cells := copies + [copy], cells + copy.repr;
      }
      t := new TaskSlice(copies, s.view, cells);
    }
  }

  /** The parts of a list. */
  datatype Contents = Contents(metadata: ListMeta, items: TaskSlice?)

  datatype ContentsView = ContentsView(metadata: ListHeaderView, items: Option<seq<TaskView>>)

  /** These parts are valid within s and show this value. */
  ghost predicate ContentsIn(p: Contents, view: ContentsView, s: set<object>)
    reads s
  {
    && p.metadata in s && p.metadata.repr <= s && p.metadata.Valid()
    && view.metadata == p.metadata.view
    && (p.items == null <==> view.items.None?)
    && (p.items != null ==>
          && p.items in s && p.items.repr <= s && p.items.Valid()
          && view.items == Some(p.items.view))
  }

  lemma ContentsGrow(p: Contents, view: ContentsView, s: set<object>, s': set<object>)
    requires ContentsIn(p, view, s) && s <= s'
    ensures ContentsIn(p, view, s')
  {
  }

  method CopyContents(p: Contents, ghost view: ContentsView, ghost s: set<object>)
    returns (q: Contents, ghost cells: set<object>)
    requires ContentsIn(p, view, s)
    ensures ContentsIn(q, view, cells) && fresh(cells)
  {
    hide ListMeta.Valid, TaskSlice.Valid;
    var metadata := CopyListMeta(p.metadata);
    var items := CopyTaskSlice(p.items);
    q := Contents(metadata, items);
    cells := metadata.repr + (if items == null then {} else items.repr);
  }

  datatype ListStruct = ListStruct(contents: Contents)

  datatype ListView = ListView(contents: ContentsView)

  class BackupTaskList {
    var v: ListStruct
    ghost var view: ListView
    ghost var repr: set<object>

    ghost predicate Valid()
      reads this, repr
    {
      && this in repr
      && ContentsIn(v.contents, view.contents, repr)
    }

    constructor ()
      ensures Valid() && this in repr && fresh(repr)
    {
      hide ListMeta.Valid;
      var metadata := new ListMeta(ListHeaderStruct("", "", null));
      v := ListStruct(Contents(metadata, null));
      view := ListView(ContentsView(metadata.view, None));
      repr := {this} + metadata.repr;
    }

    method DeepCopyInto(out: BackupTaskList)
      requires Valid() && out !in repr
      modifies out
      ensures out.Valid() && out in out.repr && fresh(out.repr - {out})
      ensures out.view == old(view) && Valid() && view == old(view)
    {
      hide ContentsIn;
      ghost var was := view;
      var copy := v;
      var contents, contentsCells := CopyContents(v.contents, view.contents, repr);
      copy := copy.(contents := contents);
      out.v, out.view := copy, was;
      out.repr := {out} + contentsCells;
      ContentsGrow(contents, was.contents, contentsCells, out.repr);
    }
  }
}
