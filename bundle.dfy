/** `tar_package`: resolve the policy, select the files, archive them,
    hash them, name the package. Everything the source obtains from the
    outside world is a parameter: the config file as loaded, the
    traversal, the glob matcher, the archiver, SHA-1, the user name, the
    directory's basename and the formatted date. */
module Bundle {
  import opened BundleTypes
  import opened Config
  import opened Selection
  import opened ContentHash
  import opened PackageId

  /** A built package: its identifier and its archive bytes. */
  datatype Package = Package(id: string, contents: seq<byte>)

  /** The package built from a selected file list: the archive and the
      hash are both computed from that same list. */
  function PackageFrom(files: seq<Entry>, user: string, basename: string, date: string,
                       sha1: seq<byte> -> string, archive: seq<Entry> -> seq<byte>): Package
  {
    Package(ComposeId(user, basename, date, sha1(HashInput(files))), archive(files))
  }

  /** What `tar_package` returns or raises. */
  function BuildPackage(config: ConfigFile, traversal: seq<Entry>, matches: Matcher,
                        user: string, basename: string, date: string,
                        sha1: seq<byte> -> string, archive: seq<Entry> -> seq<byte>): Result<Package, Error>
  {
    match Resolve(config)
    case Failure(err) => Failure(err)
    case Success(policy) =>
      match Select(traversal, policy, matches)
      case Failure(err) => Failure(err)
      case Success(files) => Success(PackageFrom(files, user, basename, date, sha1, archive))
  }

  /** `tar_package`, step by step as the source runs it: the filter is
      forced to a list before anything is archived or hashed. */
  method TarPackage(config: ConfigFile, traversal: seq<Entry>, matches: Matcher,
                    user: string, basename: string, date: string,
                    sha1: seq<byte> -> string, archive: seq<Entry> -> seq<byte>)
    returns (r: Result<Package, Error>)
    ensures r == BuildPackage(config, traversal, matches, user, basename, date, sha1, archive)
  {
    var resolved := Resolve(config);
    if resolved.Failure? {
      return Failure(resolved.error);
    }
    var policy := resolved.value;
    var included := FilterFiles(traversal, policy, matches);
    if included.Failure? {
      return Failure(included.error);
    }
    var files := included.value;
    var contents := archive(files);
    var hash := MultiFileSha1Hash(files, sha1);
    var packageId := ComposeId(user, basename, date, hash);
    r := Success(Package(packageId, contents));
  }

  /** Packaging is all or nothing: it fails exactly when the config file
      does not parse or some traversal entry is oversized under the
      effective policy; otherwise the package holds every kept entry. */
  lemma AllOrNothing(config: ConfigFile, traversal: seq<Entry>, matches: Matcher,
                     user: string, basename: string, date: string,
                     sha1: seq<byte> -> string, archive: seq<Entry> -> seq<byte>)
    ensures config.Malformed? ==>
      BuildPackage(config, traversal, matches, user, basename, date, sha1, archive) == Failure(ConfigError)
    ensures !config.Malformed? ==>
      var policy := Resolve(config).value;
      var r := BuildPackage(config, traversal, matches, user, basename, date, sha1, archive);
      (r.Failure? <==> exists i :: 0 <= i < |traversal| && Oversized(policy, matches, traversal[i]))
      && (r.Success? ==> r.value == PackageFrom(KeptEntries(traversal, policy, matches), user, basename, date, sha1, archive))
  {
  }

  /** Two traversals that differ only in their paths, with each renamed
      entry excluded and included exactly when the original was. */
  ghost predicate RenamedTraversal(a: seq<Entry>, b: seq<Entry>, policy: Policy, matches: Matcher)
  {
    |a| == |b|
    && forall i :: 0 <= i < |a| ==>
      a[i].size == b[i].size && a[i].isFile == b[i].isFile && a[i].data == b[i].data
      && (Excluded(policy, matches, a[i]) <==> Excluded(policy, matches, b[i]))
      && (Included(policy, matches, a[i]) <==> Included(policy, matches, b[i]))
  }

  /** Renaming entries keeps the selected files' shape and contents. */
  lemma {:induction false} KeptEntriesOfRenamed(a: seq<Entry>, b: seq<Entry>, policy: Policy, matches: Matcher)
    requires RenamedTraversal(a, b, policy, matches)
    ensures SameContents(KeptEntries(a, policy, matches), KeptEntries(b, policy, matches))
  {
    if a != [] {
      var n := |a| - 1;
      assert RenamedTraversal(a[..n], b[..n], policy, matches);
      KeptEntriesOfRenamed(a[..n], b[..n], policy, matches);
      assert Kept(policy, matches, a[n]) <==> Kept(policy, matches, b[n]);
    }
  }

  /** Renaming files without reordering them or changing how the policy
      classifies them neither changes whether packaging succeeds nor the
      package identifier. */
  lemma RenamingKeepsId(config: ConfigFile, a: seq<Entry>, b: seq<Entry>, matches: Matcher,
                        user: string, basename: string, date: string,
                        sha1: seq<byte> -> string, archive: seq<Entry> -> seq<byte>)
    requires !config.Malformed?
    requires RenamedTraversal(a, b, Resolve(config).value, matches)
    ensures var ra := BuildPackage(config, a, matches, user, basename, date, sha1, archive);
            var rb := BuildPackage(config, b, matches, user, basename, date, sha1, archive);
            ra.Success? == rb.Success? && (ra.Success? ==> ra.value.id == rb.value.id)
  {
    var policy := Resolve(config).value;
    assert forall i :: 0 <= i < |a| ==> (Oversized(policy, matches, a[i]) <==> Oversized(policy, matches, b[i]));
    KeptEntriesOfRenamed(a, b, policy, matches);
    HashInputIgnoresPaths(KeptEntries(a, policy, matches), KeptEntries(b, policy, matches));
  }
}
