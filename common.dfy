/** fission/common.go: resolving the controller URL, turning a local file into an
    archive (inline or uploaded to the storage service with a SHA-256 checksum),
    and assembling and submitting a package.

    Every effect the Go code performs is reached through a `World` value: the local
    files, the storage-service client, the SHA-256 implementation and the
    controller's package-create call. Instead of printing and exiting, every
    operation returns an `Error`. */
module Common {
  import opened Wrappers
  import opened GoStrings
  import opened Hex
  import opened Fission

  /** sha256.Size. */
  const DIGEST_SIZE: nat := 32

  type Digest = d: seq<byte> | |d| == DIGEST_SIZE witness seq(32, i => 0 as byte)

  /** A local file: its bytes, and whether it may be opened for reading
      (os.Stat succeeds on a file that ioutil.ReadFile and os.Open cannot read). */
  datatype FileEntry = FileEntry(contents: seq<byte>, readable: bool)

  /** The collaborators fission/common.go calls but does not define. */
  datatype World = World(
    /** The local file system; a missing path makes os.Stat fail. */
    files: map<string, FileEntry>,
    /** storagesvc client Upload: (endpoint, file name, the bytes it reads) to a storage id, or None on failure. */
    upload: (string, string, seq<byte>) -> Option<string>,
    /** storagesvc client GetUrl: (endpoint, storage id) to the URL the archive is fetched from. */
    getUrl: (string, string) -> string,
    /** crypto/sha256 over the whole file. */
    sha256: seq<byte> -> Digest,
    /** controller client PackageCreate: the metadata of the stored package, or None on failure. */
    packageCreate: Package -> Option<ObjectMeta>)

  /** The failures that fission/common.go reports through `fatal`. */
  datatype Error =
    | MissingServerUrl
    | StatFailed(path: string)
    | ReadFailed(path: string)
    | UploadFailed(path: string)
    | CreatePackageFailed

  /** controller client.Client: the base URL it talks to. */
  datatype Client = Client(url: string)

  const HTTP_SCHEME: string := "http://"
  const HTTPS_SCHEME: string := "https://"

  predicate HasScheme(url: string) {
    HasPrefix(url, HTTP_SCHEME) || HasPrefix(url, HTTPS_SCHEME)
  }

  /** getClient: an empty URL is refused; a URL without an http:// or https://
      scheme gets http:// put in front; any other URL is used as given. */
  function GetClient(serverUrl: string): (r: Result<Client, Error>)
    ensures r.Err? <==> serverUrl == []
    ensures r.Err? ==> r.error == MissingServerUrl
    ensures r.Ok? && HasScheme(serverUrl) ==> r.value.url == serverUrl
    ensures r.Ok? && !HasScheme(serverUrl) ==> r.value.url == HTTP_SCHEME + serverUrl
    ensures r.Ok? ==> HasScheme(r.value.url) && HasSuffix(r.value.url, serverUrl)
  {
    if |serverUrl| == 0 then Err(MissingServerUrl)
    else
      IndexZeroIffPrefix(serverUrl, HTTPS_SCHEME);
      IndexZeroIffPrefix(serverUrl, HTTP_SCHEME);
      var isHttps := Index(serverUrl, HTTPS_SCHEME) == 0;
      var isHttp := Index(serverUrl, HTTP_SCHEME) == 0;
      var url := if !(isHttp || isHttps) then HTTP_SCHEME + serverUrl else serverUrl;
      Ok(Client(url))
  }

  /** Resolving the URL of a resolved client changes nothing. */
  lemma GetClientIdempotent(serverUrl: string)
    requires GetClient(serverUrl).Ok?
    ensures GetClient(GetClient(serverUrl).value.url) == GetClient(serverUrl)
  {
  }

  const STORAGE_PROXY_PATH: string := "/proxy/storage"

  /** The storage-service endpoint behind the controller: the client URL with
      one trailing slash dropped, followed by /proxy/storage. */
  function StorageEndpoint(clientUrl: string): (r: string)
    ensures HasSuffix(r, STORAGE_PROXY_PATH)
    ensures HasSuffix(clientUrl, "/") ==> r[..|r| - |STORAGE_PROXY_PATH|] + "/" == clientUrl
    ensures !HasSuffix(clientUrl, "/") ==> r[..|r| - |STORAGE_PROXY_PATH|] == clientUrl
  {
    TrimSuffix(clientUrl, "/") + STORAGE_PROXY_PATH
  }

  /** One trailing slash on the controller URL does not change the endpoint. */
  lemma StorageEndpointIgnoresTrailingSlash(clientUrl: string)
    requires !HasSuffix(clientUrl, "/")
    ensures StorageEndpoint(clientUrl + "/") == StorageEndpoint(clientUrl)
  {
  }

  /** A prefix of the controller URL that is not all of it, such as its
      scheme, survives into the endpoint. */
  lemma StorageEndpointKeepsPrefix(clientUrl: string, p: string)
    requires HasPrefix(clientUrl, p) && |p| < |clientUrl|
    ensures HasPrefix(StorageEndpoint(clientUrl), p)
  {
  }

  /** fileSize: os.Stat's size of the file, failing when there is no such file. */
  function FileSize(w: World, path: string): (r: Result<nat, Error>)
    ensures r.Ok? <==> path in w.files
    ensures r.Ok? ==> r.value == |w.files[path].contents|
    ensures r.Err? ==> r.error == StatFailed(path)
  {
    if path in w.files then Ok(|w.files[path].contents|) else Err(StatFailed(path))
  }

  /** getContents: ioutil.ReadFile, failing when the file is missing or unreadable. */
  function GetContents(w: World, path: string): (r: Result<seq<byte>, Error>)
    ensures r.Ok? <==> path in w.files && w.files[path].readable
    ensures r.Ok? ==> r.value == w.files[path].contents
    ensures r.Err? ==> r.error == ReadFailed(path)
  {
    if path in w.files && w.files[path].readable then Ok(w.files[path].contents)
    else Err(ReadFailed(path))
  }

  /** The storage client's Upload: it reads the file itself, so a file that
      cannot be read fails the upload. */
  function Upload(w: World, endpoint: string, path: string): (r: Result<string, Error>)
    ensures r.Ok? <==>
      path in w.files && w.files[path].readable && w.upload(endpoint, path, w.files[path].contents).Some?
    ensures r.Ok? ==> r.value == w.upload(endpoint, path, w.files[path].contents).value
    ensures r.Err? ==> r.error == UploadFailed(path)
  {
    if path in w.files && w.files[path].readable then
      match w.upload(endpoint, path, w.files[path].contents)
      case Some(id) => Ok(id)
      case None => Err(UploadFailed(path))
    else Err(UploadFailed(path))
  }

  /** The archive createArchive builds for `path`, as a value. */
  function ArchiveFor(w: World, clientUrl: string, path: string): (r: Result<Archive, Error>)
    ensures r == Err(StatFailed(path)) <==> path !in w.files
    ensures path in w.files && |w.files[path].contents| < ARCHIVE_LITERAL_SIZE_LIMIT ==>
      (r.Ok? <==> w.files[path].readable) && (r.Err? ==> r.error == ReadFailed(path))
    ensures path in w.files && |w.files[path].contents| >= ARCHIVE_LITERAL_SIZE_LIMIT ==>
      var endpoint := StorageEndpoint(clientUrl);
      && (r.Ok? <==> w.files[path].readable && w.upload(endpoint, path, w.files[path].contents).Some?)
      && (r.Err? ==> r.error == UploadFailed(path))
    ensures r.Ok? ==> r.value.kind != NoArchiveType
    ensures r.Ok? ==> (r.value.kind == Literal <==> |w.files[path].contents| < ARCHIVE_LITERAL_SIZE_LIMIT)
    ensures r.Ok? && r.value.kind == Literal ==>
      r.value.literal == w.files[path].contents && r.value.url == "" && r.value.checksum == NO_CHECKSUM
    ensures r.Ok? && r.value.kind == Url ==>
      var contents := w.files[path].contents;
      var endpoint := StorageEndpoint(clientUrl);
      var uploaded := w.upload(endpoint, path, contents);
      && r.value.literal == []
      && uploaded.Some? && r.value.url == w.getUrl(endpoint, uploaded.value)
      && r.value.checksum.kind == Sha256
      && |r.value.checksum.sum| == 2 * DIGEST_SIZE
      && (forall i :: 0 <= i < |r.value.checksum.sum| ==> IsLowerHexDigit(r.value.checksum.sum[i]))
      && Decode(r.value.checksum.sum) == Some(w.sha256(contents))
  {
    if path !in w.files then Err(StatFailed(path))
    else
      var file := w.files[path];
      if |file.contents| < ARCHIVE_LITERAL_SIZE_LIMIT then
        if file.readable then Ok(EMPTY_ARCHIVE.(kind := Literal, literal := file.contents))
        else Err(ReadFailed(path))
      else
        var endpoint := StorageEndpoint(clientUrl);
        match Upload(w, endpoint, path)
        case Err(e) => Err(e)
        case Ok(id) =>
          var digest := w.sha256(file.contents);
          DecodeEncode(digest);
          Ok(EMPTY_ARCHIVE.(kind := Url, url := w.getUrl(endpoint, id), checksum := Checksum(Sha256, Encode(digest))))
  }

  /** createArchive: fills in a zero Archive field by field, as the Go code does.
      This is the step-by-step form of `ArchiveFor`, which states what the
      result is; the postcondition says the two agree. */
  method CreateArchive(w: World, client: Client, fileName: string) returns (r: Result<Archive, Error>)
    ensures r == ArchiveFor(w, client.url, fileName)
  {
    var size :- FileSize(w, fileName);
    var archive := EMPTY_ARCHIVE;
    if size < ARCHIVE_LITERAL_SIZE_LIMIT {
      var contents :- GetContents(w, fileName);
      archive := archive.(kind := Literal);
      archive := archive.(literal := contents);
    } else {
      var u := StorageEndpoint(client.url);
      var id :- Upload(w, u, fileName);
      var archiveUrl := w.getUrl(u, id);
      archive := archive.(kind := Url);
      archive := archive.(url := archiveUrl);
      // The checksum is taken over the bytes the upload read: the file does not change in between.
      var digest := w.sha256(w.files[fileName].contents);
      archive := archive.(checksum := Checksum(Sha256, Encode(digest)));
    }
    r := Ok(archive);
  }

  /** The observable steps of createPackage. */
  datatype Event =
    | ArchiveRequested(path: string)
    | OverwriteNotice   // "Deployment may be overwritten by builder manager after source package compilation"
    | PackageSubmitted

  /** The archive steps of createPackage, in order, when none of them fails:
      the deployment archive, the overwrite notice, the source archive. */
  function ArchiveSteps(srcArchiveName: string, deployArchiveName: string): seq<Event> {
    (if deployArchiveName != [] then
       [ArchiveRequested(deployArchiveName)] + (if srcArchiveName != [] then [OverwriteNotice] else [])
     else [])
    + (if srcArchiveName != [] then [ArchiveRequested(srcArchiveName)] else [])
  }

  /** All the steps createPackage takes, in order, when none of them fails. */
  function Steps(srcArchiveName: string, deployArchiveName: string): seq<Event> {
    ArchiveSteps(srcArchiveName, deployArchiveName) + [PackageSubmitted]
  }

  /** The first half of createPackage: the package spec and build status,
      built from zero values, deployment archive first. */
  method AssembleSpec(w: World, client: Client, envName: string, srcArchiveName: string,
                      deployArchiveName: string, buildcmd: string, description: string)
    returns (r: Result<(PackageSpec, BuildStatus), Error>, log: seq<Event>)
    ensures log <= ArchiveSteps(srcArchiveName, deployArchiveName)
    ensures r.Ok? ==> log == ArchiveSteps(srcArchiveName, deployArchiveName)
    ensures r.Err? ==>
      && |log| > 0 && log[|log| - 1].ArchiveRequested?
      && Err(r.error) == ArchiveFor(w, client.url, log[|log| - 1].path)
    ensures OverwriteNotice in log <==>
      deployArchiveName != [] && srcArchiveName != [] && ArchiveFor(w, client.url, deployArchiveName).Ok?
    ensures r.Err? <==>
      || (deployArchiveName != [] && ArchiveFor(w, client.url, deployArchiveName).Err?)
      || (srcArchiveName != [] && ArchiveFor(w, client.url, srcArchiveName).Err?)
    ensures deployArchiveName != [] && ArchiveFor(w, client.url, deployArchiveName).Err? ==>
      r == Err(ArchiveFor(w, client.url, deployArchiveName).error) && log == [ArchiveRequested(deployArchiveName)]
    ensures (deployArchiveName == [] || ArchiveFor(w, client.url, deployArchiveName).Ok?) &&
            srcArchiveName != [] && ArchiveFor(w, client.url, srcArchiveName).Err? ==>
      r == Err(ArchiveFor(w, client.url, srcArchiveName).error)
    ensures r.Ok? ==>
      var (spec, status) := r.value;
      && spec.environment == EnvironmentReference(NAMESPACE_DEFAULT, envName)
      && spec.description == description
      && spec.buildCommand == buildcmd
      && (status == Pending <==> srcArchiveName != [])
      && (spec.deployment.kind != NoArchiveType <==> deployArchiveName != [])
      && (spec.source.kind != NoArchiveType <==> srcArchiveName != [])
      && (deployArchiveName != [] ==> Ok(spec.deployment) == ArchiveFor(w, client.url, deployArchiveName))
      && (srcArchiveName != [] ==> Ok(spec.source) == ArchiveFor(w, client.url, srcArchiveName))
      && (deployArchiveName == [] ==> spec.deployment == EMPTY_ARCHIVE)
      && (srcArchiveName == [] ==> spec.source == EMPTY_ARCHIVE)
  {
    var pkgSpec := PackageSpec(EnvironmentReference(NAMESPACE_DEFAULT, envName), EMPTY_ARCHIVE, EMPTY_ARCHIVE, "", description);
    var pkgStatus := Succeeded;
    log := [];

    if |deployArchiveName| > 0 {
      log := log + [ArchiveRequested(deployArchiveName)];
      var deployment := CreateArchive(w, client, deployArchiveName);
      if deployment.Err? {
        r := Err(deployment.error);
        return;
      }
      pkgSpec := pkgSpec.(deployment := deployment.value);
      if |srcArchiveName| > 0 {
        log := log + [OverwriteNotice];
      }
    }
    if |srcArchiveName| > 0 {
      log := log + [ArchiveRequested(srcArchiveName)];
      var source := CreateArchive(w, client, srcArchiveName);
      if source.Err? {
        r := Err(source.error);
        return;
      }
      pkgSpec := pkgSpec.(source := source.value);
      pkgStatus := Pending;
    }

    if |buildcmd| > 0 {
      pkgSpec := pkgSpec.(buildCommand := buildcmd);
    }
    r := Ok((pkgSpec, pkgStatus));
  }

  /** createPackage: assembles the spec and build status, names the package
      after `id` lower-cased and submits it. `submitted` is the record handed
      to PackageCreate, if the process got that far; `log` the steps taken. */
  method CreatePackage(w: World, client: Client, envName: string, srcArchiveName: string,
                       deployArchiveName: string, buildcmd: string, description: string, id: string)
    returns (r: Result<ObjectMeta, Error>, submitted: Option<Package>, log: seq<Event>)
    ensures log <= Steps(srcArchiveName, deployArchiveName)
    ensures submitted.Some? <==> log == Steps(srcArchiveName, deployArchiveName)
    ensures OverwriteNotice in log <==>
      deployArchiveName != [] && srcArchiveName != [] && ArchiveFor(w, client.url, deployArchiveName).Ok?
    ensures submitted.None? <==>
      || (deployArchiveName != [] && ArchiveFor(w, client.url, deployArchiveName).Err?)
      || (srcArchiveName != [] && ArchiveFor(w, client.url, srcArchiveName).Err?)
    ensures deployArchiveName != [] && ArchiveFor(w, client.url, deployArchiveName).Err? ==>
      r == Err(ArchiveFor(w, client.url, deployArchiveName).error) && log == [ArchiveRequested(deployArchiveName)]
    ensures (deployArchiveName == [] || ArchiveFor(w, client.url, deployArchiveName).Ok?) &&
            srcArchiveName != [] && ArchiveFor(w, client.url, srcArchiveName).Err? ==>
      r == Err(ArchiveFor(w, client.url, srcArchiveName).error)
    ensures submitted.Some? ==>
      var p := submitted.value;
      && p.metadata == ObjectMeta(ToLower(id), NAMESPACE_DEFAULT)
      && (forall i :: 0 <= i < |p.metadata.name| ==> !IsUpper(p.metadata.name[i]))
      && p.spec.environment == EnvironmentReference(NAMESPACE_DEFAULT, envName)
      && p.spec.description == description
      && p.spec.buildCommand == buildcmd
      && (p.status.buildStatus == Pending <==> srcArchiveName != [])
      && (p.spec.deployment.kind != NoArchiveType <==> deployArchiveName != [])
      && (p.spec.source.kind != NoArchiveType <==> srcArchiveName != [])
      && (deployArchiveName != [] ==> Ok(p.spec.deployment) == ArchiveFor(w, client.url, deployArchiveName))
      && (srcArchiveName != [] ==> Ok(p.spec.source) == ArchiveFor(w, client.url, srcArchiveName))
      && (deployArchiveName == [] ==> p.spec.deployment == EMPTY_ARCHIVE)
      && (srcArchiveName == [] ==> p.spec.source == EMPTY_ARCHIVE)
      && r == (match w.packageCreate(p)
               case Some(meta) => Ok(meta)
               case None => Err(CreatePackageFailed))
  {
    submitted := None;
    var assembled;
    assembled, log := AssembleSpec(w, client, envName, srcArchiveName, deployArchiveName, buildcmd, description);
    if assembled.Err? {
      r := Err(assembled.error);
      return;
    }
    var (pkgSpec, pkgStatus) := assembled.value;

    var pkgName := ToLower(id);
    var pkg := Package(ObjectMeta(pkgName, NAMESPACE_DEFAULT), pkgSpec, PackageStatus(pkgStatus));
    log := log + [PackageSubmitted];
    submitted := Some(pkg);
    match w.packageCreate(pkg)
    case Some(meta) => r := Ok(meta);
    case None => r := Err(CreatePackageFailed);
  }
}
