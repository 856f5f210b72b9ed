/** The generated deep copies, second part: what pointers to the structs without structs inside point to. In each
    object, view is what it shows and repr holds at least what it reaches; Valid ties both to the fields. */
module DeepCopyObjects {
  import opened Types
  import opened Api
  import opened DeepCopyStructs

  class RetentionPolicySpec {
    var v: RetentionStruct
    ghost var view: RetentionView
    ghost var repr: set<object>

    ghost predicate Valid()
      reads this, repr
    {
      this in repr && RetentionCells(v) <= repr && view == ViewRetention(v)
    }

    constructor (s: RetentionStruct)
      ensures v == s && Valid() && repr == {this} + RetentionCells(s) && view == ViewRetention(s)
    {
      v, view := s, ViewRetention(s);
      repr := {this} + RetentionCells(s);
    }
  }

  method CopyRetentionPolicySpec(p: RetentionPolicySpec?) returns (q: RetentionPolicySpec?)
    requires p != null ==> p.Valid()
    ensures p == null <==> q == null
    ensures q != null ==> q.Valid() && q.view == p.view && q in q.repr && fresh(q.repr)
  {
    q := null;
    if p != null {
      var copy := CopyRetention(p.v);
      q := new RetentionPolicySpec(copy);
    }
  }

  class EncryptionSpec {
    var v: EncryptionStruct
    ghost var view: EncryptionView
    ghost var repr: set<object>

    ghost predicate Valid()
      reads this, repr
    {
      this in repr && EncryptionCells(v) <= repr && view == ViewEncryption(v)
    }

    constructor (s: EncryptionStruct)
      ensures v == s && Valid() && repr == {this} + EncryptionCells(s) && view == ViewEncryption(s)
    {
      v, view := s, ViewEncryption(s);
      repr := {this} + EncryptionCells(s);
    }
  }

  method CopyEncryptionSpec(p: EncryptionSpec?) returns (q: EncryptionSpec?)
    requires p != null ==> p.Valid()
    ensures p == null <==> q == null
    ensures q != null ==> q.Valid() && q.view == p.view && q in q.repr && fresh(q.repr)
  {
    q := null;
    if p != null {
      var copy := CopyEncryption(p.v);
      q := new EncryptionSpec(copy);
    }
  }

  class BackupTaskStatus {
    var v: StatusStruct
    ghost var view: StatusView
    ghost var repr: set<object>

    ghost predicate Valid()
      reads this, repr
    {
      this in repr && StatusCells(v) <= repr && view == ViewStatus(v)
    }

    constructor (s: StatusStruct)
      ensures v == s && Valid() && repr == {this} + StatusCells(s) && view == ViewStatus(s)
    {
      v, view := s, ViewStatus(s);
      repr := {this} + StatusCells(s);
    }
  }

  method CopyBackupTaskStatus(p: BackupTaskStatus?) returns (q: BackupTaskStatus?)
    requires p != null ==> p.Valid()
    ensures p == null <==> q == null
    ensures q != null ==> q.Valid() && q.view == p.view && q in q.repr && fresh(q.repr)
  {
    q := null;
    if p != null {
      var copy := CopyStatus(p.v);
      q := new BackupTaskStatus(copy);
    }
  }

  class ObjectMeta {
    var v: MetaStruct
    ghost var view: MetaView
    ghost var repr: set<object>

    ghost predicate Valid()
      reads this, repr
    {
      this in repr && MetaCells(v) <= repr && view == ViewMeta(v)
    }

    constructor (s: MetaStruct)
      ensures v == s && Valid() && repr == {this} + MetaCells(s) && view == ViewMeta(s)
    {
      v, view := s, ViewMeta(s);
      repr := {this} + MetaCells(s);
    }
  }

  method CopyObjectMeta(p: ObjectMeta?) returns (q: ObjectMeta?)
    requires p != null ==> p.Valid()
    ensures p == null <==> q == null
    ensures q != null ==> q.Valid() && q.view == p.view && q in q.repr && fresh(q.repr)
  {
    q := null;
    if p != null {
      var copy := CopyMeta(p.v);
      q := new ObjectMeta(copy);
    }
  }

  class ListMeta {
    var v: ListHeaderStruct
    ghost var view: ListHeaderView
    ghost var repr: set<object>

    ghost predicate Valid()
      reads this, repr
    {
      this in repr && ListHeaderCells(v) <= repr && view == ViewListHeader(v)
    }

    constructor (s: ListHeaderStruct)
      ensures v == s && Valid() && repr == {this} + ListHeaderCells(s) && view == ViewListHeader(s)
    {
      v, view := s, ViewListHeader(s);
      repr := {this} + ListHeaderCells(s);
    }
  }

  method CopyListMeta(p: ListMeta?) returns (q: ListMeta?)
    requires p != null ==> p.Valid()
    ensures p == null <==> q == null
    ensures q != null ==> q.Valid() && q.view == p.view && q in q.repr && fresh(q.repr)
  {
    q := null;
    if p != null {
      var copy := CopyListHeader(p.v);
      q := new ListMeta(copy);
    }
  }

  class DatabaseBackupSpec {
    var v: DatabaseStruct
    ghost var view: DatabaseView
    ghost var repr: set<object>

    ghost predicate Valid()
      reads this, repr
    {
      this in repr && DatabaseCells(v) <= repr && view == ViewDatabase(v)
    }

    constructor (s: DatabaseStruct)
      ensures v == s && Valid() && repr == {this} + DatabaseCells(s) && view == ViewDatabase(s)
    {
      v, view := s, ViewDatabase(s);
      repr := {this} + DatabaseCells(s);
    }
  }

  method CopyDatabaseBackupSpec(p: DatabaseBackupSpec?) returns (q: DatabaseBackupSpec?)
    requires p != null ==> p.Valid()
    ensures p == null <==> q == null
    ensures q != null ==> q.Valid() && q.view == p.view && q in q.repr && fresh(q.repr)
  {
    q := null;
    if p != null {
      var copy := CopyDatabase(p.v);
      q := new DatabaseBackupSpec(copy);
    }
  }

  class ConfigBackupSpec {
    var v: ConfigStruct
    ghost var view: ConfigView
    ghost var repr: set<object>

    ghost predicate Valid()
      reads this, repr
    {
      this in repr && ConfigCells(v) <= repr && view == ViewConfig(v)
    }

    constructor (s: ConfigStruct)
      ensures v == s && Valid() && repr == {this} + ConfigCells(s) && view == ViewConfig(s)
    {
      v, view := s, ViewConfig(s);
      repr := {this} + ConfigCells(s);
    }
  }

  method CopyConfigBackupSpec(p: ConfigBackupSpec?) returns (q: ConfigBackupSpec?)
    requires p != null ==> p.Valid()
    ensures p == null <==> q == null
    ensures q != null ==> q.Valid() && q.view == p.view && q in q.repr && fresh(q.repr)
  {
    q := null;
    if p != null {
      var copy := CopyConfig(p.v);
      q := new ConfigBackupSpec(copy);
    }
  }

  class NfsBackupSpec {
    var v: NfsStruct
    ghost var view: NfsView
    ghost var repr: set<object>

    ghost predicate Valid()
      reads this, repr
    {
      this in repr && NfsCells(v) <= repr && view == ViewNfs(v)
    }

    constructor (s: NfsStruct)
      ensures v == s && Valid() && repr == {this} + NfsCells(s) && view == ViewNfs(s)
    {
      v, view := s, ViewNfs(s);
      repr := {this} + NfsCells(s);
    }
  }

  method CopyNfsBackupSpec(p: NfsBackupSpec?) returns (q: NfsBackupSpec?)
    requires p != null ==> p.Valid()
    ensures p == null <==> q == null
    ensures q != null ==> q.Valid() && q.view == p.view && q in q.repr && fresh(q.repr)
  {
    q := null;
    if p != null {
      var copy := CopyNfs(p.v);
      q := new NfsBackupSpec(copy);
    }
  }

  class S3StorageSpec {
    var v: S3Struct
    ghost var view: S3View
    ghost var repr: set<object>

    ghost predicate Valid()
      reads this, repr
    {
      this in repr && S3Cells(v) <= repr && view == ViewS3(v)
    }

    constructor (s: S3Struct)
      ensures v == s && Valid() && repr == {this} + S3Cells(s) && view == ViewS3(s)
    {
      v, view := s, ViewS3(s);
      repr := {this} + S3Cells(s);
    }
  }

  method CopyS3StorageSpec(p: S3StorageSpec?) returns (q: S3StorageSpec?)
    requires p != null ==> p.Valid()
    ensures p == null <==> q == null
    ensures q != null ==> q.Valid() && q.view == p.view && q in q.repr && fresh(q.repr)
  {
    q := null;
    if p != null {
      var copy := CopyS3(p.v);
      q := new S3StorageSpec(copy);
    }
  }

  class SftpStorageSpec {
    var v: SftpStruct
    ghost var view: SftpView
    ghost var repr: set<object>

    ghost predicate Valid()
      reads this, repr
    {
      this in repr && SftpCells(v) <= repr && view == ViewSftp(v)
    }

    constructor (s: SftpStruct)
      ensures v == s && Valid() && repr == {this} + SftpCells(s) && view == ViewSftp(s)
    {
      v, view := s, ViewSftp(s);
      repr := {this} + SftpCells(s);
    }
  }

  method CopySftpStorageSpec(p: SftpStorageSpec?) returns (q: SftpStorageSpec?)
    requires p != null ==> p.Valid()
    ensures p == null <==> q == null
    ensures q != null ==> q.Valid() && q.view == p.view && q in q.repr && fresh(q.repr)
  {
    q := null;
    if p != null {
      var copy := CopySftp(p.v);
      q := new SftpStorageSpec(copy);
    }
  }

  class NfsStorageSpec {
    var v: NfsStorageStruct
    ghost var view: NfsStorageView
    ghost var repr: set<object>

    ghost predicate Valid()
      reads this, repr
    {
      this in repr && NfsStorageCells(v) <= repr && view == ViewNfsStorage(v)
    }

    constructor (s: NfsStorageStruct)
      ensures v == s && Valid() && repr == {this} + NfsStorageCells(s) && view == ViewNfsStorage(s)
    {
      v, view := s, ViewNfsStorage(s);
      repr := {this} + NfsStorageCells(s);
    }
  }

  method CopyNfsStorageSpec(p: NfsStorageSpec?) returns (q: NfsStorageSpec?)
    requires p != null ==> p.Valid()
    ensures p == null <==> q == null
    ensures q != null ==> q.Valid() && q.view == p.view && q in q.repr && fresh(q.repr)
  {
    q := null;
    if p != null {
      var copy := CopyNfsStorage(p.v);
      q := new NfsStorageSpec(copy);
    }
  }

  class PodTemplateSpec {
    var v: PodTemplateStruct
    ghost var view: PodTemplateView
    ghost var repr: set<object>

    ghost predicate Valid()
      reads this, repr
    {
      this in repr && PodTemplateCells(v) <= repr && view == ViewPodTemplate(v)
    }

    constructor (s: PodTemplateStruct)
      ensures v == s && Valid() && repr == {this} + PodTemplateCells(s) && view == ViewPodTemplate(s)
    {
      v, view := s, ViewPodTemplate(s);
      repr := {this} + PodTemplateCells(s);
    }
  }

  method CopyPodTemplateSpec(p: PodTemplateSpec?) returns (q: PodTemplateSpec?)
    requires p != null ==> p.Valid()
    ensures p == null <==> q == null
    ensures q != null ==> q.Valid() && q.view == p.view && q in q.repr && fresh(q.repr)
  {
    q := null;
    if p != null {
      var copy := CopyPodTemplate(p.v);
      q := new PodTemplateSpec(copy);
    }
  }

  class ExecHook {
    var v: ExecStruct
    ghost var view: ExecView
    ghost var repr: set<object>

    ghost predicate Valid()
      reads this, repr
    {
      this in repr && ExecCells(v) <= repr && view == ViewExec(v)
    }

    constructor (s: ExecStruct)
      ensures v == s && Valid() && repr == {this} + ExecCells(s) && view == ViewExec(s)
    {
      v, view := s, ViewExec(s);
      repr := {this} + ExecCells(s);
    }
  }

  method CopyExecHook(p: ExecHook?) returns (q: ExecHook?)
    requires p != null ==> p.Valid()
    ensures p == null <==> q == null
    ensures q != null ==> q.Valid() && q.view == p.view && q in q.repr && fresh(q.repr)
  {
    q := null;
    if p != null {
      var copy := CopyExec(p.v);
      q := new ExecHook(copy);
    }
  }

  class HttpHook {
    var v: HttpStruct
    ghost var view: HttpView
    ghost var repr: set<object>

    ghost predicate Valid()
      reads this, repr
    {
      this in repr && HttpCells(v) <= repr && view == ViewHttp(v)
    }

    constructor (s: HttpStruct)
      ensures v == s && Valid() && repr == {this} + HttpCells(s) && view == ViewHttp(s)
    {
      v, view := s, ViewHttp(s);
      repr := {this} + HttpCells(s);
    }
  }

  method CopyHttpHook(p: HttpHook?) returns (q: HttpHook?)
    requires p != null ==> p.Valid()
    ensures p == null <==> q == null
    ensures q != null ==> q.Valid() && q.view == p.view && q in q.repr && fresh(q.repr)
  {
    q := null;
    if p != null {
      var copy := CopyHttp(p.v);
      q := new HttpHook(copy);
    }
  }

  class DirectoryBackupSpec {
    var v: DirectoryStruct
    ghost var view: DirectoryView
    ghost var repr: set<object>

    ghost predicate Valid()
      reads this, repr
    {
      this in repr && (v.paths != null ==> v.paths in repr) && DirectoryCells(v) <= repr && view == ViewDirectory(v)
    }

    constructor (s: DirectoryStruct)
      ensures v == s && Valid() && repr == {this} + DirectoryCells(s) && view == ViewDirectory(s)
    {
      v, view := s, ViewDirectory(s);
      repr := {this} + DirectoryCells(s);
    }
  }

  method CopyDirectoryBackupSpec(p: DirectoryBackupSpec?) returns (q: DirectoryBackupSpec?)
    requires p != null ==> p.Valid()
    ensures p == null <==> q == null
    ensures q != null ==> q.Valid() && q.view == p.view && q in q.repr && fresh(q.repr)
  {
    q := null;
    if p != null {
      var copy := CopyDirectory(p.v);
      q := new DirectoryBackupSpec(copy);
    }
  }

  datatype SmbStruct = SmbStruct(server: string, share: string, path: string, authSecret: string, domain: string)

  class SmbStorageSpec {
    var v: SmbStruct
    ghost var view: SmbStruct
    ghost var repr: set<object>

    ghost predicate Valid()
      reads this, repr
    {
      this in repr && view == v
    }

    constructor (s: SmbStruct)
      ensures v == s && Valid() && repr == {this} && view == s
    {
      v, view := s, s;
      repr := {this};
    }
  }

  method CopySmbStorageSpec(p: SmbStorageSpec?) returns (q: SmbStorageSpec?)
    requires p != null ==> p.Valid()
    ensures p == null <==> q == null
    ensures q != null ==> q.Valid() && q.view == p.view && q in q.repr && fresh(q.repr)
  {
    q := null;
    if p != null {
      q := new SmbStorageSpec(p.v);
    }
  }

  class ResourceRequirements {
    var v: Library
    ghost var view: Library
    ghost var repr: set<object>

    ghost predicate Valid()
      reads this, repr
    {
      this in repr && view == v
    }

    constructor (s: Library)
      ensures v == s && Valid() && repr == {this} && view == s
    {
      v, view := s, s;
      repr := {this};
    }
  }

  method CopyResourceRequirements(p: ResourceRequirements?) returns (q: ResourceRequirements?)
    requires p != null ==> p.Valid()
    ensures p == null <==> q == null
    ensures q != null ==> q.Valid() && q.view == p.view && q in q.repr && fresh(q.repr)
  {
    q := null;
    if p != null {
      q := new ResourceRequirements(p.v);
    }
  }
}
