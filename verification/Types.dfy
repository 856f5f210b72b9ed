/** The API types of the operator as plain values: what the API server stores and what a controller reads. */
module Types {
  datatype Option<+T> = None | Some(value: T)

  /** Go's int32. */
  type int32 = x: int | -0x8000_0000 <= x < 0x8000_0000

  /** Instants and durations, in nanoseconds. */
  type Time = int

  /** The fate of an API call: answered, lost on the way, or effective without an answer. */
  datatype Fault = Answered | Dropped | Ambiguous

  datatype Key = Key(ns: string, name: string)

  datatype DirectoryPath = DirectoryPath(path: string, pvcRef: Option<string>, subPath: string)

  datatype Directory = Directory(paths: seq<DirectoryPath>, compressionLevel: Option<int32>)

  datatype Database = Database(kind: string, host: string, port: Option<int32>, name: string, authSecret: string)

  datatype Config = Config(includeNamespaces: seq<string>)

  datatype Nfs = Nfs(server: string, path: string)

  datatype Target = Target(
    name: string, kind: string,
    database: Option<Database>, config: Option<Config>, directory: Option<Directory>, nfs: Option<Nfs>)

  datatype S3Storage = S3Storage(endpoint: string, bucket: string, authSecret: string)

  datatype NfsStorage = NfsStorage(server: string, path: string)

  datatype SftpStorage = SftpStorage(host: string, path: string, authSecret: string)

  datatype SmbStorage = SmbStorage(server: string, share: string, authSecret: string)

  datatype RemoteStorage = RemoteStorage(
    kind: string, s3: Option<S3Storage>, sftp: Option<SftpStorage>, nfs: Option<NfsStorage>, smb: Option<SmbStorage>)

  datatype Encryption = Encryption(
    enabled: bool, algorithm: string, keySecret: string, encryptAfterCompress: Option<bool>)

  datatype PodTemplate = PodTemplate(labels: map<string, string>)

  datatype KeepLast = KeepLast(hours: int32, days: int32, weeks: int32, months: int32)

  datatype RetentionPolicy = RetentionPolicy(
    maxAgeDays: Option<int32>, maxBackupCount: Option<int32>, keepLast: Option<KeepLast>)

  datatype TaskSpec = TaskSpec(
    schedule: string,
    retention: Option<RetentionPolicy>,
    targets: seq<Target>,
    remoteStorage: RemoteStorage,
    encryption: Option<Encryption>,
    podTemplate: Option<PodTemplate>,
    backupImage: string,
    backupCmd: string)

  datatype Phase = NoPhase | Pending | Running | Completed | Failed | Expired

  const BACKUP_TASK_LABEL := "backup.mybackup.com/backup-task"
  const BACKUP_TASK_UID_LABEL := "backup.mybackup.com/backup-task-uid"
  const CREATED_BY_LABEL := "backup.mybackup.com/created-by"
}
