/** Downloading the chunk blobs of a received share into the staging directory. */
module Fetch {
  import B2Conf
  import opened Bytes
  import RcloneConf
  import opened Wrappers
  import opened Store
  import Text
  import opened Uuid
  import VaultPath

  // ---------------------------------------------------------------- paths

  /** `Path::join` on Unix: an absolute argument replaces the directory. */
  function Join(dir: string, name: string): string {
    if name != "" && name[0] == '/' then name
    else if dir == "" || dir[|dir| - 1] == '/' then dir + name
    else dir + "/" + name
  }

  /** Empty pieces do not count, and neither does "." except in front. */
  function Pieces(segs: seq<string>): seq<string> {
    if segs == [] then []
    else
      var last := segs[|segs| - 1];
      Pieces(segs[..|segs| - 1]) + (if last == "" || (last == "." && |segs| > 1) then [] else [last])
  }

  function Components(path: string): seq<string> {
    (if path != "" && path[0] == '/' then ["/"] else []) + Pieces(VaultPath.Split(path))
  }

  /** `Path::starts_with` compares components. */
  predicate StartsWith(path: string, base: string) {
    Components(base) <= Components(path)
  }

  function ChunkPath(staging: string, chunk: string): string {
    Join(staging, chunk + ".blob")
  }

  function ConfPath(staging: string, shareId: string): string {
    Join(staging, "dl-" + shareId + ".conf")
  }

  lemma PiecesSnoc(segs: seq<string>, name: string)
    requires name != "" && name != "."
    ensures Pieces(segs + [name]) == Pieces(segs) + [name]
  {
    assert (segs + [name])[..|segs|] == segs;
  }

  lemma SinglePiece(name: string)
    requires '/' !in name
    ensures VaultPath.Split(name) == [name]
    ensures Pieces([name]) == if name == "" then [] else [name]
  {
    VaultPath.NoSlash(name);
    assert [name][..0] == [];
  }

  /** A name without a slash, joined to a directory, is one component inside it. */
  lemma JoinIsInside(dir: string, name: string)
    requires '/' !in name && name != "" && name != "."
    ensures Components(Join(dir, name)) == Components(dir) + [name]
  {
    hide VaultPath.Split, Pieces;
    assert name[0] in name;
    if dir == "" {
      assert dir + name == name;
      SinglePiece("");
      SinglePiece(name);
    } else if dir[|dir| - 1] == '/' {
      PiecesUnderSlash(dir, name);
      assert (dir + name)[0] == dir[0];
    } else {
      VaultPath.SplitSnoc(dir, name);
      PiecesSnoc(VaultPath.Split(dir), name);
      assert (dir + "/" + name)[0] == dir[0];
    }
  }

  lemma PiecesUnderSlash(dir: string, name: string)
    requires dir != "" && dir[|dir| - 1] == '/'
    requires '/' !in name && name != "" && name != "."
    ensures Pieces(VaultPath.Split(dir + name)) == Pieces(VaultPath.Split(dir)) + [name]
  {
    hide VaultPath.Split;
    var d := dir[..|dir| - 1];
    assert dir == d + "/" + "";
    assert dir + name == d + "/" + name;
    VaultPath.SplitSnoc(d, "");
    VaultPath.SplitSnoc(d, name);
    PiecesSnoc(VaultPath.Split(d), name);
    assert (VaultPath.Split(d) + [""])[..|VaultPath.Split(d)|] == VaultPath.Split(d);
  }

  /** A chunk named by a UUID lands inside the staging directory, whatever that directory is. */
  lemma ChunkStaysInStaging(staging: string, chunk: string)
    requires IsUuidV4Str(chunk)
    ensures StartsWith(ChunkPath(staging, chunk), staging)
    ensures Components(ChunkPath(staging, chunk)) == Components(staging) + [chunk + ".blob"]
  {
    ParsedHasNoSlash(chunk);
    JoinIsInside(staging, chunk + ".blob");
  }

  /** So does the temporary conf of a share whose id has no slash. */
  lemma ConfStaysInStaging(staging: string, shareId: string)
    requires '/' !in shareId
    ensures Components(ConfPath(staging, shareId)) == Components(staging) + ["dl-" + shareId + ".conf"]
  {
    JoinIsInside(staging, "dl-" + shareId + ".conf");
  }

  lemma ConfIsNotAChunk(staging: string, shareId: string, chunk: string)
    ensures ConfPath(staging, shareId) != ChunkPath(staging, chunk)
  {
    var conf, path := ConfPath(staging, shareId), ChunkPath(staging, chunk);
    assert conf[|conf| - 1] == 'f' && path[|path| - 1] == 'b';
  }

  // ---------------------------------------------------------------- what a fetch does

  /** The files of the staging directory, by path. */
  type Files = map<string, seq<byte>>

  /** How one download goes: whether the transport reports success, what it wrote, and whether the test for the
      file's existence fails. */
  datatype Transfer = Transfer(accepted: bool, written: Option<seq<byte>>, checkFails: bool)

  /** How writing the temporary rclone conf goes; a failed write may have created the file with part of it. */
  datatype ConfWrite = Written | NotWritten(partial: Option<seq<byte>>)

  /** What the machine contributes to one fetch: its staging directory, whether it is there, whether the rclone
      binary is, the JSON and UTF-8 codecs, and how the conf is written. */
  datatype Machine = Machine(
    staging: string, stagingReady: bool, hasBinary: bool,
    compactJson: string -> Option<string>, utf8: string -> seq<byte>, write: ConfWrite)

  /** The loop's inputs. Blobs can be addressed if the transport is scoped or the path prefix is not empty. */
  datatype Job = Job(staging: string, chunks: seq<string>, transfers: seq<Transfer>, addressable: bool) {
    predicate Valid() {
      |chunks| == |transfers|
    }

    function Path(i: nat): string
      requires i < |chunks|
    {
      ChunkPath(staging, chunks[i])
    }

    function Paths(n: nat): seq<string>
      requires n <= |chunks|
    {
      seq(n, i requires 0 <= i < n => Path(i))
    }

    /** The files once the first `n` downloads have been run. */
    function FilesAfter(files: Files, n: nat): (after: Files)
      requires Valid() && n <= |chunks|
      ensures files.Keys <= after.Keys
      decreases n
    {
      if n == 0 then files else FilesAfter(files, n - 1) + NewFile(n - 1)
    }

    /** What the download of chunk `i` writes. */
    function NewFile(i: nat): Files
      requires Valid() && i < |chunks|
    {
      if transfers[i].written.Some? then map[Path(i) := transfers[i].written.value] else map[]
    }

    /** The download of chunk `i` is attempted. */
    predicate Attempted(i: nat)
      requires i < |chunks|
    {
      IsUuidV4Str(chunks[i]) && addressable
    }

    predicate Fetched(files: Files, i: nat)
      requires Valid() && i < |chunks|
    {
      Attempted(i) && transfers[i].accepted && !transfers[i].checkFails && Path(i) in FilesAfter(files, i + 1)
    }

    ghost predicate FailsAt(files: Files, n: nat)
      requires Valid()
    {
      n < |chunks| && !Fetched(files, n) && forall i :: 0 <= i < n ==> Fetched(files, i)
    }

    /** A failure at chunk `n`: what was there then, less the files of the earlier chunks and the conf,
        except those that cannot be removed. */
    ghost predicate FailedAt(files: Files, n: nat, conf: set<string>, stuck: set<string>, after: Files, error: Error)
      requires Valid()
    {
      && FailsAt(files, n)
      && after == FilesAfter(files, if Attempted(n) then n + 1 else n) - (Elements(Paths(n)) - stuck) - (conf - stuck)
      && error == if Attempted(n) then CloudOperation else InvalidSharePackage
    }

    ghost predicate Outcome(files: Files, conf: set<string>, stuck: set<string>, after: Files, r: Result<seq<string>>)
      requires Valid()
    {
      match r
      case Ok(paths) =>
        && (forall i :: 0 <= i < |chunks| ==> Fetched(files, i))
        && paths == Paths(|chunks|) && after == FilesAfter(files, |chunks|) - (conf - stuck)
      case Err(error) => exists n: nat :: FailedAt(files, n, conf, stuck, after, error)
    }
  }

  function GetText(value: Json, name: string): Option<string> {
    if value.Object? && name in value.fields && value.fields[name].Text?
    then Some(value.fields[name].text) else None
  }

  function Provider(row: ReceivedShare): Option<string> {
    GetText(row.cloudEndpoint, "provider")
  }

  /** The share carries credentials that a temporary transport is built from. */
  predicate HasScopedTransport(row: ReceivedShare, hasBinary: bool) {
    hasBinary && (Provider(row) == Some("b2") || Provider(row) == Some("drive"))
  }

  predicate Buildable(row: ReceivedShare, compactJson: string -> Option<string>) {
    var endpoint := row.cloudEndpoint;
    if Provider(row) == Some("b2") then
      && GetText(endpoint, "key_id").Some? && GetText(endpoint, "application_key").Some?
      && GetText(endpoint, "bucket").Some? && GetText(endpoint, "path_prefix").Some?
    else
      && GetText(endpoint, "folder_id").Some? && GetText(endpoint, "sa_credentials_json").Some?
      && compactJson(GetText(endpoint, "sa_credentials_json").value).Some?
  }

  /** The conf for a Drive share, with its service account as one line of JSON. */
  function DriveConf(account: string, folder: string): string {
    "[arxshare-gdl]" + "\n" + ("type = drive" + "\n" + ("scope = drive.readonly" + "\n" +
    ("service_account_credentials = " + account + "\n" + ("root_folder_id = " + folder + "\n" + ""))))
  }

  /** The temporary rclone conf. */
  function ConfText(row: ReceivedShare, compactJson: string -> Option<string>): string
    requires Buildable(row, compactJson)
  {
    var endpoint := row.cloudEndpoint;
    if Provider(row) == Some("b2") then
      B2Conf.B2Stanza("arxshare-dl", GetText(endpoint, "key_id").value, GetText(endpoint, "application_key").value)
    else
      DriveConf(compactJson(GetText(endpoint, "sa_credentials_json").value).value, GetText(endpoint, "folder_id").value)
  }

  /** The conf of a B2 share reads back as the key id and application key that the share carries, without the white
      space around them. */
  lemma B2ConfReadsBack(row: ReceivedShare, compactJson: string -> Option<string>)
    requires Provider(row) == Some("b2") && Buildable(row, compactJson)
    requires '\n' !in GetText(row.cloudEndpoint, "key_id").value
    requires '\n' !in GetText(row.cloudEndpoint, "application_key").value
    ensures B2Conf.B2Keys(RcloneConf.Stanzas(ConfText(row, compactJson), "arxshare-dl")) ==
            Some((RcloneConf.Trim(GetText(row.cloudEndpoint, "key_id").value),
                  RcloneConf.Trim(GetText(row.cloudEndpoint, "application_key").value)))
  {
    hide B2Conf.B2Stanza, RcloneConf.Trim, GetText;
    var endpoint := row.cloudEndpoint;
    var keyId, appKey := GetText(endpoint, "key_id").value, GetText(endpoint, "application_key").value;
    NothingInEmptyConf("arxshare-dl");
    B2Conf.PrintThenParse("", "arxshare-dl", keyId, appKey, "");
    var text := B2Conf.B2Stanza("arxshare-dl", keyId, appKey);
    assert "" + text + "" == text;
  }

  lemma NothingInEmptyConf(remote: string)
    ensures B2Conf.B2Keys(RcloneConf.Stanzas("", remote)) == None
  {
  }

  /** The conf of a Drive share holds one stanza: a read-only Drive remote with the share's service account and
      folder. */
  lemma DriveConfReadsBack(row: ReceivedShare, compactJson: string -> Option<string>)
    requires Provider(row) == Some("drive") && Buildable(row, compactJson)
    requires '\n' !in compactJson(GetText(row.cloudEndpoint, "sa_credentials_json").value).value
    requires '\n' !in GetText(row.cloudEndpoint, "folder_id").value
    ensures var account := compactJson(GetText(row.cloudEndpoint, "sa_credentials_json").value).value;
            RcloneConf.Stanzas(ConfText(row, compactJson), "arxshare-gdl") ==
            [[("type", "drive"), ("scope", "drive.readonly"),
              ("service_account_credentials", RcloneConf.Trim(account)),
              ("root_folder_id", RcloneConf.Trim(GetText(row.cloudEndpoint, "folder_id").value))]]
  {
    hide RcloneConf.Trim, RcloneConf.Stanzas, DriveConf;
    DriveStanza(compactJson(GetText(row.cloudEndpoint, "sa_credentials_json").value).value,
                GetText(row.cloudEndpoint, "folder_id").value);
  }

  lemma DriveStanza(account: string, folder: string)
    requires '\n' !in account && '\n' !in folder
    ensures RcloneConf.Stanzas(DriveConf(account, folder), "arxshare-gdl") ==
            [[("type", "drive"), ("scope", "drive.readonly"),
              ("service_account_credentials", RcloneConf.Trim(account)), ("root_folder_id", RcloneConf.Trim(folder))]]
  {
    hide RcloneConf.Trim, RcloneConf.Parsed, RcloneConf.Bodies, DriveConf;
    DriveConfParsed(account, folder);
    var lines := DriveLines(account, folder);
    RcloneConf.BodiesOfStanza("arxshare-gdl", lines, RcloneConf.Named("arxshare-gdl"));
    DriveBody(lines, RcloneConf.Trim(account), RcloneConf.Trim(folder));
  }

  function DriveLines(account: string, folder: string): seq<RcloneConf.Line> {
    [RcloneConf.Pair("type", "drive"), RcloneConf.Pair("scope", "drive.readonly"),
     RcloneConf.Pair("service_account_credentials", RcloneConf.Trim(account)),
     RcloneConf.Pair("root_folder_id", RcloneConf.Trim(folder))]
  }

  lemma DriveConfParsed(account: string, folder: string)
    requires '\n' !in account && '\n' !in folder
    ensures RcloneConf.Parsed(DriveConf(account, folder)) ==
            [RcloneConf.Header("arxshare-gdl")] + DriveLines(account, folder)
  {
    hide RcloneConf.Parsed, RcloneConf.Classify, RcloneConf.Trim;
    var d := "root_folder_id = " + folder + "\n" + "";
    var c := "service_account_credentials = " + account + "\n" + d;
    var b := "scope = drive.readonly" + "\n" + c;
    var a := "type = drive" + "\n" + b;
    RcloneConf.ParsedLine("root_folder_id = " + folder, "");
    RcloneConf.ParsedLine("service_account_credentials = " + account, d);
    RcloneConf.ParsedLine("scope = drive.readonly", c);
    RcloneConf.ParsedLine("type = drive", b);
    RcloneConf.ParsedLine("[arxshare-gdl]", a);
    RcloneConf.PrintedHeader("arxshare-gdl");
    assert "[" + "arxshare-gdl" + "]" == "[arxshare-gdl]";
    DriveFixedLines();
    DriveVariableLines(account, folder);
    B2Conf.NoLines();
  }

  lemma DriveFixedLines()
    ensures RcloneConf.Classify("type = drive") == RcloneConf.Pair("type", "drive")
    ensures RcloneConf.Classify("scope = drive.readonly") == RcloneConf.Pair("scope", "drive.readonly")
  {
    hide RcloneConf.Classify;
    PlainPair("type", "drive");
    PlainPair("scope", "drive.readonly");
    assert "type" + " = " + "drive" == "type = drive" && "scope" + " = " + "drive.readonly" == "scope = drive.readonly";
  }

  lemma PlainPair(key: string, value: string)
    requires key != "" && Text.Stripped(key, RcloneConf.IsSpace) && key[0] != '[' && '=' !in key
    requires Text.Stripped(value, RcloneConf.IsSpace)
    ensures RcloneConf.Classify(key + " = " + value) == RcloneConf.Pair(key, value)
  {
    RcloneConf.PrintedPair(key, value);
    Text.StrippedIff(value, RcloneConf.IsSpace);
  }

  lemma DriveVariableLines(account: string, folder: string)
    ensures RcloneConf.Classify("service_account_credentials = " + account) ==
            RcloneConf.Pair("service_account_credentials", RcloneConf.Trim(account))
    ensures RcloneConf.Classify("root_folder_id = " + folder) ==
            RcloneConf.Pair("root_folder_id", RcloneConf.Trim(folder))
  {
    hide RcloneConf.Classify;
    RcloneConf.PrintedPair("service_account_credentials", account);
    RcloneConf.PrintedPair("root_folder_id", folder);
    assert "service_account_credentials" + " = " == "service_account_credentials = ";
    assert "root_folder_id" + " = " == "root_folder_id = ";
  }

  lemma DriveBody(lines: seq<RcloneConf.Line>, account: string, folder: string)
    requires lines == [RcloneConf.Pair("type", "drive"), RcloneConf.Pair("scope", "drive.readonly"),
                       RcloneConf.Pair("service_account_credentials", account),
                       RcloneConf.Pair("root_folder_id", folder)]
    ensures RcloneConf.BodyOf(lines) == [("type", "drive"), ("scope", "drive.readonly"),
                                         ("service_account_credentials", account), ("root_folder_id", folder)]
  {
    assert lines[..3][..2][..1] == [lines[0]] && [lines[0]][..0] == [] && lines[..3][..2] == lines[..2];
    assert RcloneConf.BodyOf([lines[0]]) == [("type", "drive")];
    assert RcloneConf.BodyOf(lines[..2]) == [("type", "drive"), ("scope", "drive.readonly")];
    assert RcloneConf.BodyOf(lines[..3]) == [("type", "drive"), ("scope", "drive.readonly"),
                                             ("service_account_credentials", account)];
  }

  function PathPrefix(row: ReceivedShare): string {
    var prefix := GetText(row.cloudEndpoint, "path_prefix");
    if prefix.Some? then prefix.value else ""
  }

  /** A blob has a remote path: its bare name under a scoped root, or a name behind a path prefix. */
  predicate Addressable(row: ReceivedShare, hasBinary: bool) {
    HasScopedTransport(row, hasBinary) || PathPrefix(row) != ""
  }

  function JobOf(row: ReceivedShare, m: Machine, transfers: seq<Transfer>): Job {
    Job(m.staging, row.chunkUuids, transfers, Addressable(row, m.hasBinary))
  }

  function Elements(paths: seq<string>): set<string> {
    set p | p in paths
  }

  /** The staging directory. Removing a file in `stuck` fails; failures are ignored. */
  class Staging {
    var files: Files
    const stuck: set<string>

    method RemoveFile(path: string)
      modifies this
      ensures files == old(files) - ({path} - stuck)
    {
      if path !in stuck {
        files := files - {path};
      }
    }

    method CleanupTempFiles(paths: seq<string>)
      modifies this
      ensures files == old(files) - (Elements(paths) - stuck)
    {
      for i := 0 to |paths|
        invariant files == old(files) - (Elements(paths[..i]) - stuck)
      {
        RemoveFile(paths[i]);
        assert paths[..i + 1] == paths[..i] + [paths[i]];
      }
      assert paths[..|paths|] == paths;
    }

    method WriteConf(confPath: string, bytes: seq<byte>, write: ConfWrite) returns (ok: bool)
      modifies this
      ensures ok == write.Written?
      ensures files == old(files) + ConfFile(confPath, bytes, write)
    {
      ok := write.Written?;
      match write
      case Written => files := files[confPath := bytes];
      case NotWritten(Some(part)) => files := files[confPath := part];
      case NotWritten(None) =>
    }

    /** The scoped transport for B2 or Drive: checks the embedded fields, then writes the conf. */
    method BuildShareTransport(row: ReceivedShare, confPath: string, m: Machine) returns (error: Option<Error>)
      requires Provider(row) == Some("b2") || Provider(row) == Some("drive")
      modifies this
      ensures error == if !Buildable(row, m.compactJson) then Some(InvalidSharePackage)
                       else if m.write.NotWritten? then Some(CloudOperation) else None
      ensures files == old(files) +
                       (if Buildable(row, m.compactJson)
                        then ConfFile(confPath, m.utf8(ConfText(row, m.compactJson)), m.write) else map[])
      ensures error.None? ==> confPath in files && files[confPath] == m.utf8(ConfText(row, m.compactJson))
    {
      var endpoint := row.cloudEndpoint;
      var text: string;
      if Provider(row) == Some("b2") {
        var keyId, appKey := GetText(endpoint, "key_id"), GetText(endpoint, "application_key");
        if keyId.None? || appKey.None? || GetText(endpoint, "bucket").None? || GetText(endpoint, "path_prefix").None? {
          return Some(InvalidSharePackage);
        }
        text := B2Conf.B2Stanza("arxshare-dl", keyId.value, appKey.value);
      } else {
        var folderId, account := GetText(endpoint, "folder_id"), GetText(endpoint, "sa_credentials_json");
        if folderId.None? || account.None? {
          return Some(InvalidSharePackage);
        }
        var compact := m.compactJson(account.value);
        if compact.None? {
          return Some(InvalidSharePackage);
        }
        text := DriveConf(compact.value, folderId.value);
      }
      var ok := WriteConf(confPath, m.utf8(text), m.write);
      error := if ok then None else Some(CloudOperation);
    }

    method RemoveConf(conf: Option<string>)
      modifies this
      ensures files == old(files) - (ConfSet(conf) - stuck)
    {
      if conf.Some? {
        RemoveFile(conf.value);
      }
    }

    /** The download of one chunk; false if it must be given up. */
    method Download(job: Job, i: nat) returns (ok: bool)
      requires job.Valid() && i < |job.chunks| && job.Attempted(i)
      modifies this
      ensures files == old(files) + job.NewFile(i)
      ensures ok <==> job.transfers[i].accepted && !job.transfers[i].checkFails && job.Path(i) in files
    {
      var localPath := Join(job.staging, job.chunks[i] + ".blob");
      // A UUID has no slash, so the path cannot leave the staging directory: that exit is never taken.
      ChunkStaysInStaging(job.staging, job.chunks[i]);
      assert StartsWith(localPath, job.staging);
      if job.transfers[i].written.Some? {
        files := files[localPath := job.transfers[i].written.value];
      }
      if !job.transfers[i].accepted {
        return false;
      }
      ok := !job.transfers[i].checkFails && localPath in files;
    }

    /** The download loop. On success the paths of all chunks, in order; on failure at a chunk the files of
        the chunks before it are deleted again. In both cases the temporary conf is deleted if there is one. */
    method FetchChunks(job: Job, conf: Option<string>) returns (r: Result<seq<string>>)
      requires job.Valid() && (conf.Some? ==> job.addressable)
      modifies this
      ensures job.Outcome(old(files), ConfSet(conf), stuck, files, r)
    {
      hide IsUuidV4Str, ChunkPath, Elements, ConfSet;
      ghost var before := files;
      var localPaths: seq<string> := [];
      for i := 0 to |job.chunks|
        invariant localPaths == job.Paths(i)
        invariant files == job.FilesAfter(before, i)
        invariant forall k :: 0 <= k < i ==> job.Fetched(before, k)
      {
        if !IsUuidV4Str(job.chunks[i]) {
          CleanupTempFiles(localPaths);
          RemoveConf(conf);
          assert job.FailedAt(before, i, ConfSet(conf), stuck, files, InvalidSharePackage);
          return Err(InvalidSharePackage);
        }
        if !job.addressable {
          CleanupTempFiles(localPaths);
          NoConf(conf);
          assert job.FailedAt(before, i, ConfSet(conf), stuck, files, InvalidSharePackage);
          return Err(InvalidSharePackage);
        }
        var ok := Download(job, i);
        if !ok {
          CleanupTempFiles(localPaths);
          RemoveConf(conf);
          assert job.FailedAt(before, i, ConfSet(conf), stuck, files, CloudOperation);
          return Err(CloudOperation);
        }
        localPaths := localPaths + [job.Path(i)];
      }
      RemoveConf(conf);
      return Ok(localPaths);
    }

    method FetchReceivedShareToLocal(shareId: string, lookup: Result<ReceivedShare>, m: Machine,
                                     transfers: seq<Transfer>)
      returns (r: Result<seq<string>>)
      requires lookup.Ok? ==> |transfers| == |lookup.value.chunkUuids|
      modifies this
      ensures FetchOutcome(shareId, lookup, m, transfers, old(files), stuck, files, r)
      // The temporary conf remains exactly if it cannot be removed, or its write failed half-way, or it was
      // there before and this call never wrote it.
      ensures ConfPath(m.staging, shareId) in files <==>
                if lookup.Ok? && m.stagingReady && Writes(lookup.value, m)
                then m.write.NotWritten? || ConfPath(m.staging, shareId) in stuck
                else ConfPath(m.staging, shareId) in old(files)
    {
      hide GetText, PathPrefix, Buildable, Join, ConfText;
      if lookup.Err? {
        return Err(lookup.error);
      }
      var row := lookup.value;
      if !m.stagingReady {
        return Err(CloudOperation);
      }
      var provider := Provider(row);
      var confPath := ConfPath(m.staging, shareId);
      var scoped := false;
      if m.hasBinary && (provider == Some("b2") || provider == Some("drive")) {
        var error := BuildShareTransport(row, confPath, m);
        if error.Some? {
          return Err(error.value);
        }
        scoped := true;
      }
      if !scoped && provider.None? {
        return Err(CloudOperation);
      }
      ghost var before, conf := files, if scoped then Some(confPath) else None;
      assert ConfSet(conf) == ConfWritten(row, m, shareId).Keys;
      assert before == old(files) + ConfWritten(row, m, shareId);
      var job := JobOf(row, m, transfers);
      r := FetchChunks(job, if scoped then Some(confPath) else None);
      ConfAfterwards(job, before, conf, stuck, files, r, shareId);
    }
  }

  /** The result of a fetch and the files it leaves: the loop's outcome, if it is reached; otherwise which error,
      and that nothing but the conf was written. */
  ghost predicate FetchOutcome(shareId: string, lookup: Result<ReceivedShare>, m: Machine, transfers: seq<Transfer>,
                               files: Files, stuck: set<string>, after: Files, r: Result<seq<string>>)
    requires lookup.Ok? ==> |transfers| == |lookup.value.chunkUuids|
  {
    if lookup.Ok? && m.stagingReady && Ready(lookup.value, m) then
      var conf := ConfWritten(lookup.value, m, shareId);
      JobOf(lookup.value, m, transfers).Outcome(files + conf, conf.Keys, stuck, after, r)
    else
      && r == Err(EarlyError(lookup, m))
      && after == if lookup.Ok? && m.stagingReady then files + ConfWritten(lookup.value, m, shareId) else files
  }

  function ConfSet(conf: Option<string>): set<string> {
    if conf.Some? then {conf.value} else {}
  }

  lemma NoConf(conf: Option<string>)
    ensures conf.None? ==> ConfSet(conf) == {}
  {
  }

  function ConfFile(confPath: string, bytes: seq<byte>, write: ConfWrite): Files {
    match write
    case Written => map[confPath := bytes]
    case NotWritten(Some(part)) => map[confPath := part]
    case NotWritten(None) => map[]
  }

  /** The conf as far as this call writes it. */
  function ConfWritten(row: ReceivedShare, m: Machine, shareId: string): Files {
    if HasScopedTransport(row, m.hasBinary) && Buildable(row, m.compactJson)
    then ConfFile(ConfPath(m.staging, shareId), m.utf8(ConfText(row, m.compactJson)), m.write)
    else map[]
  }

  /** The loop is reached. */
  predicate Ready(row: ReceivedShare, m: Machine) {
    if HasScopedTransport(row, m.hasBinary) then Buildable(row, m.compactJson) && m.write.Written?
    else Provider(row).Some?
  }

  /** The error of a call that does not reach the loop. */
  function EarlyError(lookup: Result<ReceivedShare>, m: Machine): Error {
    if lookup.Err? then lookup.error
    else if m.stagingReady && HasScopedTransport(lookup.value, m.hasBinary) &&
            !Buildable(lookup.value, m.compactJson) then
      InvalidSharePackage
    else CloudOperation
  }

  /** This call writes the conf, or at least creates it. */
  predicate Writes(row: ReceivedShare, m: Machine) {
    HasScopedTransport(row, m.hasBinary) && Buildable(row, m.compactJson) && m.write != NotWritten(None)
  }

  // ---------------------------------------------------------------- what an outcome means

  lemma {:induction false} FilesGrow(job: Job, files: Files, n: nat, m: nat)
    requires job.Valid() && n <= m <= |job.chunks|
    ensures job.FilesAfter(files, n).Keys <= job.FilesAfter(files, m).Keys
    decreases m
  {
    if n < m {
      FilesGrow(job, files, n, m - 1);
    }
  }

  /** On success: one existing path inside the staging directory per chunk, in order. */
  lemma FetchedPathsExist(job: Job, files: Files, shareId: string, stuck: set<string>, after: Files,
                          paths: seq<string>)
    requires job.Valid()
    requires job.Outcome(files, {ConfPath(job.staging, shareId)}, stuck, after, Ok(paths)) ||
             job.Outcome(files, {}, stuck, after, Ok(paths))
    ensures |paths| == |job.chunks|
    ensures forall i :: 0 <= i < |paths| ==>
              paths[i] in after && Components(paths[i]) == Components(job.staging) + [job.chunks[i] + ".blob"]
  {
    forall i | 0 <= i < |paths|
      ensures paths[i] in after && Components(paths[i]) == Components(job.staging) + [job.chunks[i] + ".blob"]
    {
      assert job.Fetched(files, i);
      ChunkStaysInStaging(job.staging, job.chunks[i]);
      ConfIsNotAChunk(job.staging, shareId, job.chunks[i]);
      FilesGrow(job, files, i + 1, |job.chunks|);
    }
  }

  /** On failure: no file of a chunk fetched before it remains, except those that cannot be removed. */
  lemma EarlierChunksGone(job: Job, files: Files, conf: set<string>, stuck: set<string>, after: Files,
                          error: Error)
    returns (n: nat)
    requires job.Valid() && job.Outcome(files, conf, stuck, after, Err(error))
    ensures job.FailsAt(files, n)
    ensures forall i :: 0 <= i < n ==> job.Path(i) !in after || job.Path(i) in stuck
  {
    n :| job.FailedAt(files, n, conf, stuck, after, error);
    forall i | 0 <= i < n
      ensures job.Path(i) in Elements(job.Paths(n))
    {
      assert job.Paths(n)[i] == job.Path(i);
    }
  }

  /** The file of the failing chunk itself is another matter: once its download was attempted it is left behind
      if and only if the transport wrote it or it was there before, unless the same chunk was also fetched earlier
      in this call and could be removed. */
  lemma FailingChunkStaysIff(job: Job, files: Files, shareId: string, conf: set<string>, stuck: set<string>,
                             after: Files, error: Error, n: nat)
    requires job.Valid() && job.FailedAt(files, n, conf, stuck, after, error) && job.Attempted(n)
    requires conf <= {ConfPath(job.staging, shareId)}
    ensures job.Path(n) in after <==>
              (job.transfers[n].written.Some? || job.Path(n) in job.FilesAfter(files, n)) &&
              (job.Path(n) in job.Paths(n) ==> job.Path(n) in stuck)
  {
    ConfIsNotAChunk(job.staging, shareId, job.chunks[n]);
    assert job.FilesAfter(files, n + 1) == job.FilesAfter(files, n) + job.NewFile(n);
  }

  /** For example: a download of a single chunk that wrote the file and then reported an error. */
  lemma FailingChunkStays(staging: string, u: V4, bytes: seq<byte>, stuck: set<string>)
    ensures var job := Job(staging, [Hyphenated(u)], [Transfer(false, Some(bytes), false)], true);
            job.Valid() && job.FailedAt(map[], 0, {}, stuck, map[job.Path(0) := bytes], CloudOperation)
  {
    hide Hyphenated, IsUuidV4Str, ChunkPath;
    var job := Job(staging, [Hyphenated(u)], [Transfer(false, Some(bytes), false)], true);
    V4Text(u);
    assert job.Attempted(0) && !job.Fetched(map[], 0);
    assert job.FilesAfter(map[], 0) == map[];
    assert job.FilesAfter(map[], 1) == map[job.Path(0) := bytes];
    assert Elements(job.Paths(0)) == {};
  }

  /** And the conf that a failed write left half-written: the call ends there and nothing removes it, credentials
      and all. */
  lemma HalfWrittenConfStays(shareId: string, row: ReceivedShare, m: Machine, part: seq<byte>, transfers: seq<Transfer>,
                             files: Files, stuck: set<string>, after: Files, r: Result<seq<string>>)
    requires |transfers| == |row.chunkUuids| && m.stagingReady && m.write == NotWritten(Some(part))
    requires HasScopedTransport(row, m.hasBinary) && Buildable(row, m.compactJson)
    requires FetchOutcome(shareId, Ok(row), m, transfers, files, stuck, after, r)
    ensures r == Err(CloudOperation) && after == files[ConfPath(m.staging, shareId) := part]
  {
  }

  lemma {:induction false} ConfAfter(job: Job, files: Files, n: nat, shareId: string)
    requires job.Valid() && n <= |job.chunks|
    ensures ConfPath(job.staging, shareId) in job.FilesAfter(files, n) <==> ConfPath(job.staging, shareId) in files
    ensures ConfPath(job.staging, shareId) !in Elements(job.Paths(n))
    decreases n
  {
    forall i | 0 <= i < n
      ensures job.Path(i) != ConfPath(job.staging, shareId)
    {
      ConfIsNotAChunk(job.staging, shareId, job.chunks[i]);
    }
    if n > 0 {
      ConfAfter(job, files, n - 1, shareId);
    }
  }

  /** The loop leaves the conf alone but for its removal at every exit. */
  lemma ConfAfterwards(job: Job, files: Files, conf: Option<string>, stuck: set<string>, after: Files,
                       r: Result<seq<string>>, shareId: string)
    requires job.Valid() && job.Outcome(files, ConfSet(conf), stuck, after, r)
    requires conf.None? || conf.value == ConfPath(job.staging, shareId)
    ensures var path := ConfPath(job.staging, shareId);
            path in after <==> path in files && (conf.None? || path in stuck)
  {
    hide ConfPath;
    match r
    case Ok(_) =>
      ConfAfter(job, files, |job.chunks|, shareId);
    case Err(error) =>
      var n: nat :| job.FailedAt(files, n, ConfSet(conf), stuck, after, error);
      ConfAfter(job, files, n, shareId);
      ConfAfter(job, files, if job.Attempted(n) then n + 1 else n, shareId);
  }
}
