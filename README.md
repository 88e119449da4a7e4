# Fission CLI package helpers, modelled in Dafny

This project models the decision logic in `fission/common.go` of the Fission
command-line client. That file does three things before a package is handed to the controller:

- **Client resolution** (`getClient`). An empty server URL is refused. A URL that does not
  start with `http://` or `https://` gets `http://` put in front of it.
- **Archive building** (`createArchive`). A file smaller than `ArchiveLiteralSizeLimit` is
  sent inline as a literal archive. Any file of at least that size is uploaded to the storage service at
  `<controller URL, one trailing slash dropped>/proxy/storage`. The archive then records the
  URL the storage service gives back and a SHA-256 checksum written as lower-case hex.
- **Package assembly** (`createPackage`). The deployment archive is built first, then the
  source archive. The build status is `Pending` exactly when a source archive is given and
  `Succeeded` otherwise. A notice is printed when both archives are given. The package is
  named after a generated id, lower-cased, in the default namespace.

Everything the Go code reaches outside itself is a field of the `Common.World` datatype:

- the local files, as a map from path to bytes plus a readable flag;
- the storage client's `Upload` and `GetUrl`;
- the SHA-256 function;
- the controller's `PackageCreate`.

The generated id is a parameter. Where the Go code calls `fatal` and exits, the model
returns an `Error`. `CreatePackage` also returns the record it submitted and a log of its
visible steps: each archive request, the overwrite notice and the submission.

Files:

- `wrappers.dfy`: the `Option` and `Result` types.
- `go_strings.dfy`: the parts of Go's `strings` package the code uses: `Index`,
  `TrimSuffix`, and `ToLower` on ASCII letters.
- `hex.dfy`: bytes, plus `encoding/hex` encoding and the matching decoder.
- `fission.dfy`: the records (`Archive`, `PackageSpec`, `Package`, ...) and their zero values.
- `common.dfy`: the operations of `fission/common.go`.

`fileSize` and `getContents` are modelled as `Common.FileSize` and `Common.GetContents`:
lookups in the file map that fail with `StatFailed` or `ReadFailed`. The storage client's
upload, which reads the file itself, is modelled by `Common.Upload`.

`createPackage` sets the build status itself (fission/common.go:117, 128). The
`BuildCommand` field always equals `buildcmd`, because its zero value is the empty string
(fission/common.go:131-133).

## Model

| member | source | states |
|---|---|---|
| `GoStrings.Index` | fission/common.go:48-49 | `strings.Index` gives -1 exactly when the substring occurs nowhere; otherwise it gives an occurrence with no earlier occurrence |
| `GoStrings.IndexZeroIffPrefix` | fission/common.go:48-49 | `strings.Index(s, p) == 0` holds exactly when `s` starts with `p`, which is what the scheme tests rely on |
| `GoStrings.TrimSuffix` | fission/common.go:78 | `strings.TrimSuffix` drops exactly one copy of the suffix when it is there and otherwise returns the string unchanged |
| `GoStrings.ToLower` | fission/common.go:135 | the package name has the same length as the id, keeps every character except that ASCII upper-case letters become lower case, and contains no upper-case letter |
| `GoStrings.ToLowerIdempotent` | fission/common.go:135 | lower-casing an already lower-cased name changes nothing |
| `Hex.Encode` | fission/common.go:103 | `hex.EncodeToString` produces two characters per byte, and each is a lower-case hex digit |
| `Hex.DecodeEncode` | fission/common.go:103 | decoding the hex checksum gives back the exact digest bytes |
| `Hex.EncodeInjective` | fission/common.go:103 | two different digests never share a checksum string |
| `Common.GetClient` | fission/common.go:42-56 | an empty URL fails with `MissingServerUrl` and builds no client; a URL starting with `http://` or `https://` is kept as is; any other URL becomes `http://` + URL; the result always starts with one of the two schemes and ends with the URL given |
| `Common.GetClientIdempotent` | fission/common.go:48-53 | resolving a resolved URL again returns the same client |
| `Common.StorageEndpoint` | fission/common.go:78 | the endpoint ends in `/proxy/storage`; what comes before that suffix is the client URL, minus its one trailing `/` if it has one |
| `Common.StorageEndpointIgnoresTrailingSlash` | fission/common.go:78 | `url` and `url/` give the same storage endpoint |
| `Common.StorageEndpointKeepsPrefix` | fission/common.go:78 | any prefix of the client URL that is shorter than the whole URL, such as its `http://` or `https://` scheme when a host follows, is kept in the endpoint |
| `Common.FileSize` | fission/common.go:64-68 | the size is known exactly when the file exists, and it is the number of bytes in the file; otherwise the call fails with `StatFailed` for that path |
| `Common.GetContents` | fission/common.go:151-158 | the read succeeds exactly when the file exists and can be read, and it gives the file's bytes; otherwise it fails with `ReadFailed` for that path |
| `Common.Upload` | fission/common.go:82-83 | the upload succeeds exactly when the file can be read and the storage client's upload of its bytes to the endpoint returns an id, and it gives that id; otherwise it fails with `UploadFailed` for that path |
| `Common.ArchiveFor` | fission/common.go:64-107 | a missing file fails with `StatFailed`. Below the size limit: the archive is a literal holding exactly the file's bytes, with no URL or checksum, or the call fails with `ReadFailed` when the file cannot be read. At or above the limit: the archive is a URL archive whose URL is `GetUrl` of the id returned by `Upload` to the storage endpoint, with no literal bytes, and whose checksum is of type SHA-256 with a sum of 64 lower-case hex digits that decode to the SHA-256 of the file's bytes; the call fails with `UploadFailed` when the upload does |
| `Common.CreateArchive` | fission/common.go:71-107 | the archive built field by field from a zero `Archive` is exactly `ArchiveFor` of the client URL and the file name, error cases included |
| `Common.AssembleSpec` | fission/common.go:110-133 | the deployment archive is built before the source archive, and the steps taken are a prefix of that plan (deployment, notice, source). The notice appears exactly when both paths are given and the deployment archive was built. When an archive fails, that archive's request is the last step taken and the call fails with its error; the deployment error is reported first. Otherwise: the environment is the default namespace with the name as given; the description and build command are as given; build status is `Pending` exactly when a source path is given; each archive is set exactly when its path is non-empty, equals `ArchiveFor` of that path when set, and is the zero archive otherwise |
| `Common.CreatePackage` | fission/common.go:109-149 | the deployment archive is built before the source archive, and the steps taken are a prefix of the plan (deployment, notice, source, submit). The notice appears exactly when both paths are given and the deployment archive was built. When an archive fails, nothing is submitted and its error is returned, with the deployment error reported first. Otherwise the submitted package has: its name equal to the lower-cased id, with no upper-case letters; the default namespace for both the package and the environment; the environment name as given; the description and build command as given; build status `Pending` exactly when a source path is given; and each archive set exactly when its path is non-empty, equal to `ArchiveFor` of that path. The result is the metadata `PackageCreate` returns, or `CreatePackageFailed` |

## Left out

- File system: `os.Stat`, `ioutil.ReadFile` and `os.Open` are lookups in a map from path to contents and a readable flag. Sizes are unbounded naturals, not `int64`.
- `os.Open` and `io.Copy` failing after a successful upload (fission/common.go:90-99) is not modelled. The model assumes that the second open and read succeed and see the bytes that were uploaded, so it hashes the same bytes the upload read.
- The storage-service client (`MakeClient`, `Upload`, `GetUrl`) and the controller client (`MakeClient`, `PackageCreate`) are network clients whose code is not part of this model. They appear as uninterpreted fields of `World`. `client.MakeClient` is taken to keep the URL it is given.
- SHA-256 itself (FIPS 180-4) is an uninterpreted function from bytes to a 32-byte digest.
- `uuid.NewV4` is nondeterministic, so the id is a parameter.
- `fatal`, `os.Exit` and the texts written to stderr and stdout are replaced by `Error` values and `Event` entries. The message strings are not modelled.
- `ArchiveLiteralSizeLimit` and the archive-type, checksum-type and build-status constants are defined in fission/types.go, which is not part of this model. The limit is taken to be 256 KiB. The other constants become datatype constructors.
- Strings are sequences of characters, not of bytes, so `GoStrings.Index` gives a character position where Go's `strings.Index` gives a byte offset. The code only compares that position with 0 for the ASCII prefixes `http://` and `https://`, and `TrimSuffix` only strips the ASCII `/`, so the two agree wherever the model uses them.
- GoStrings.ToLower: lower-cases the ASCII letters only. Go's `strings.ToLower` also folds non-ASCII letters. The ids that `uuid` produces are ASCII.
