/**
 * The SFTP storage backend: where a file lives on the remote host, what public
 * URL it is served under, and what Upload, Delete, Open and Stat return. The
 * remote operations themselves (connecting, creating directories and files,
 * copying bytes) are parameters: each is given as the outcome it has for a path.
 */
module FtpStorage {
  import opened Wrappers
  import opened GoStrings
  import opened GoPath

  /** An SFTP storage configuration. */
  datatype SftpStorage = SftpStorage(host: string, port: int, user: string, password: string, baseDir: string, publicUrl: string)

  /** The remote path of a file: the filename itself without a base directory, else the two joined. */
  function FullPath(s: SftpStorage, filename: string): (p: string)
    ensures s.baseDir == "" ==> p == filename
    ensures s.baseDir != "" ==> p == Clean(s.baseDir + "/" + filename)
  {
    if s.baseDir == "" then filename else Join2(s.baseDir, filename)
  }

  /** A file directly under a plain base directory lives at base/filename. */
  lemma FullPathUnderPlainBase(s: SftpStorage, filename: string)
    requires PlainSegment(s.baseDir) && PlainSegment(filename)
    ensures FullPath(s, filename) == s.baseDir + "/" + filename
  {
    JoinPlain(s.baseDir, filename);
  }

  /**
   * The public URL of a file: the base directory joined in, one leading "upload/"
   * dropped. Every URL lies under the public URL; under the base "upload" a plain
   * file is served right under it, and any other plain base stays in the URL.
   */
  function GetURL(s: SftpStorage, filename: string): (url: string)
    ensures HasPrefix(url, s.publicUrl + "/")
    ensures s.baseDir == "upload" && PlainSegment(filename) ==> url == s.publicUrl + "/" + filename
    ensures PlainSegment(s.baseDir) && s.baseDir != "upload" && PlainSegment(filename) ==>
              url == s.publicUrl + "/" + s.baseDir + "/" + filename
  {
    var url := s.publicUrl + "/" + TrimPrefix(Join2(s.baseDir, filename), "upload/");
    assert url[..|s.publicUrl + "/"|] == s.publicUrl + "/";
    if PlainSegment(s.baseDir) && PlainSegment(filename) then
      JoinPlain(s.baseDir, filename);
      var joined := s.baseDir + "/" + filename;
      if s.baseDir == "upload" then
        assert joined == "upload/" + filename;
        assert HasPrefix(joined, "upload/") && joined[|"upload/"|..] == filename;
        url
      else
        NoUploadPrefix(s.baseDir, filename);
        url
    else
      url
  }

  lemma NoUploadPrefix(b: string, f: string)
    requires '/' !in b && b != "upload"
    ensures !HasPrefix(b + "/" + f, "upload/")
  {
    var t := b + "/" + f;
    var u := "upload/";
    if |t| >= 7 {
      if |b| < 6 {
        assert t[..7][|b|] == '/' != u[|b|];
      } else if |b| > 6 {
        assert t[..7][6] == b[6] != '/';
      } else {
        assert t[..7][..6] == b;
        assert u[..6] == "upload";
      }
    }
  }

  /** The URL of a file in storage without a base directory: the cleaned filename, "upload/" dropped. */
  lemma URLWithoutBase(s: SftpStorage, filename: string)
    requires s.baseDir == "" && filename != ""
    ensures GetURL(s, filename) == s.publicUrl + "/" + TrimPrefix(Clean(filename), "upload/")
  {
  }

  /** The directory Upload creates first, if any: the parent of the remote path unless it is "" or ".". */
  function MkdirTarget(s: SftpStorage, filename: string): (d: Option<string>)
    ensures d.Some? ==> d.value == Dir(FullPath(s, filename)) && d.value != "."
    ensures d.None? ==> Dir(FullPath(s, filename)) == "."
  {
    var dir := Dir(FullPath(s, filename));
    if dir != "" && dir != "." then Some(dir) else None
  }

  /** A plain filename without a base directory needs no directory; under a plain base it needs the base. */
  lemma MkdirForPlainFiles(s: SftpStorage, filename: string)
    requires PlainSegment(filename)
    ensures s.baseDir == "" ==> MkdirTarget(s, filename) == None
    ensures PlainSegment(s.baseDir) ==> MkdirTarget(s, filename) == Some(s.baseDir)
  {
    if s.baseDir == "" {
      CleanPlain(filename);
    } else if PlainSegment(s.baseDir) {
      FullPathUnderPlainBase(s, filename);
      DirOfPlainJoin(s.baseDir, filename);
    }
  }

  /** How the copy of the uploaded bytes ends: the request is cancelled first, or the copy finishes or fails. */
  datatype Transfer = Cancelled(reason: string) | Copied(bytes: int) | CopyFailed(error: string)

  /** What Upload returns: a name and an error, as Go's (string, error) pair. */
  datatype UploadResult = UploadResult(name: string, err: Option<string>)

  /**
   * Upload: connect, create the parent directory when there is one, create the
   * remote file and copy into it. Success returns the caller's filename; every
   * failure returns "" and the failing step's error.
   */
  function Upload(s: SftpStorage, filename: string, connect: Outcome<string>,
                  mkdirAll: string -> Outcome<string>, create: string -> Outcome<string>, transfer: Transfer): (r: UploadResult)
    ensures r.err.None? ==> r.name == filename
    ensures r.err.Some? ==> r.name == ""
    ensures r.err.None? <==>
              && connect.Pass?
              && (MkdirTarget(s, filename).None? || mkdirAll(MkdirTarget(s, filename).value).Pass?)
              && create(FullPath(s, filename)).Pass?
              && transfer.Copied?
  {
    if connect.Fail? then UploadResult("", Some(connect.error))
    else
      var fullPath := FullPath(s, filename);
      var dir := MkdirTarget(s, filename);
      if dir.Some? && mkdirAll(dir.value).Fail? then UploadResult("", Some(mkdirAll(dir.value).error))
      else if create(fullPath).Fail? then UploadResult("", Some(create(fullPath).error))
      else
        match transfer
        case Cancelled(reason) => UploadResult("", Some("sftp upload canceled/timeout: " + reason))
        case CopyFailed(e) => UploadResult("", Some(e))
        case Copied(_) => UploadResult(filename, None)
  }

  /** A cancelled upload reports the cancellation, whatever the remote steps before it did. */
  lemma CancelledUploadFails(s: SftpStorage, filename: string, mkdirAll: string -> Outcome<string>,
                             create: string -> Outcome<string>, reason: string)
    requires MkdirTarget(s, filename).None? || mkdirAll(MkdirTarget(s, filename).value).Pass?
    requires create(FullPath(s, filename)).Pass?
    ensures Upload(s, filename, Pass, mkdirAll, create, Cancelled(reason))
            == UploadResult("", Some("sftp upload canceled/timeout: " + reason))
  {
  }

  /** Delete: the remote removal of the file's remote path. */
  function Delete(s: SftpStorage, filename: string, connect: Outcome<string>, remove: string -> Outcome<string>): (r: Outcome<string>)
    ensures connect.Fail? ==> r == connect
    ensures connect.Pass? ==> r == remove(FullPath(s, filename))
  {
    if connect.Fail? then connect else remove(FullPath(s, filename))
  }

  /** Open: the remote file at the file's remote path, or the connection's or the open's error. */
  function Open<F>(s: SftpStorage, filename: string, connect: Outcome<string>, open: string -> Result<F, string>): (r: Result<F, string>)
    ensures connect.Fail? ==> r == Err(connect.error)
    ensures connect.Pass? ==> r == open(FullPath(s, filename))
  {
    if connect.Fail? then Err(connect.error) else open(FullPath(s, filename))
  }

  /** What Stat returns: a size and an error, as Go's (int64, error) pair. */
  datatype StatResult = StatResult(size: int, err: Option<string>)

  /** Stat: the size of the file at its remote path; 0 with the error on any failure. */
  function Stat(s: SftpStorage, filename: string, connect: Outcome<string>, stat: string -> Result<int, string>): (r: StatResult)
    ensures r.err.Some? ==> r.size == 0
    ensures r.err.None? <==> connect.Pass? && stat(FullPath(s, filename)).Ok?
    ensures r.err.None? ==> r.size == stat(FullPath(s, filename)).value
  {
    if connect.Fail? then StatResult(0, Some(connect.error))
    else
      match stat(FullPath(s, filename))
      case Err(e) => StatResult(0, Some(e))
      case Ok(n) => StatResult(n, None)
  }

  /** Upload, Delete, Open and Stat all address the same remote path: a file uploaded is the file they act on. */
  lemma OperationsShareOnePath(s: SftpStorage, filename: string, mkdirAll: string -> Outcome<string>, transfer: Transfer)
    requires MkdirTarget(s, filename).None? || mkdirAll(MkdirTarget(s, filename).value).Pass?
    requires transfer.Copied?
    ensures var created := (p: string) => if p == FullPath(s, filename) then Pass else Fail("no such file");
            && Upload(s, filename, Pass, mkdirAll, created, transfer) == UploadResult(filename, None)
            && Delete(s, filename, Pass, created) == Pass
            && Stat(s, filename, Pass, (p: string) => if p == FullPath(s, filename) then Ok(0) else Err("no such file")).err.None?
  {
  }
}
