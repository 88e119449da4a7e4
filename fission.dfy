/** The records of the `fission` and `tpr` packages that fission/common.go fills in.
    Each Go struct becomes a datatype whose zero value is spelled out, since
    createArchive and createPackage start from zero values and set fields one by one. */
module Fission {
  import opened Hex

  /** fission.ArchiveLiteralSizeLimit: files smaller than this are sent inline (256 KiB). */
  const ARCHIVE_LITERAL_SIZE_LIMIT: nat := 256 * 1024

  /** metav1.NamespaceDefault. */
  const NAMESPACE_DEFAULT: string := "default"

  /** fission.ArchiveType: the empty string of a zero Archive, "literal" or "url". */
  datatype ArchiveType = NoArchiveType | Literal | Url

  /** fission.ChecksumType: the empty string of a zero Checksum, or "sha256". */
  datatype ChecksumType = NoChecksumType | Sha256

  datatype Checksum = Checksum(kind: ChecksumType, sum: string)

  /** fission.Archive: inline bytes, or a URL with a checksum of the bytes behind it. */
  datatype Archive = Archive(kind: ArchiveType, literal: seq<byte>, url: string, checksum: Checksum)

  const NO_CHECKSUM: Checksum := Checksum(NoChecksumType, "")

  /** The zero value of fission.Archive: what a PackageSpec holds when no archive was given. */
  const EMPTY_ARCHIVE: Archive := Archive(NoArchiveType, [], "", NO_CHECKSUM)

  datatype EnvironmentReference = EnvironmentReference(namespace: string, name: string)

  datatype PackageSpec = PackageSpec(
    environment: EnvironmentReference,
    source: Archive,
    deployment: Archive,
    buildCommand: string,
    description: string)

  /** The two values of fission.BuildStatus that createPackage assigns. */
  datatype BuildStatus = Pending | Succeeded

  datatype PackageStatus = PackageStatus(buildStatus: BuildStatus)

  /** The part of metav1.ObjectMeta that createPackage sets. */
  datatype ObjectMeta = ObjectMeta(name: string, namespace: string)

  /** tpr.Package: the record submitted to the controller. */
  datatype Package = Package(metadata: ObjectMeta, spec: PackageSpec, status: PackageStatus)
}
