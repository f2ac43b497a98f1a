# Code packaging: file selection, content hash and package naming

This project models the core of `epfml.bundle`, which packs a directory
into a gzip'd tar archive for transfer between machines and names the
package after its user, directory, date and content hash. The model
covers the decision logic of `tar_package`:

- **Config** (`config.dfy`): the built-in policy (eleven exclude
  patterns, no include patterns, `max_file_size = 100_000`) shallowly
  merged with the keys of an optional `.codepack.toml`. A key that the
  file sets replaces the default as a whole. A missing file leaves the
  defaults. A file that does not parse aborts with `ConfigError`. The merge
  is proved equal to Python's `{**config, **user_config}` on a dictionary
  model of the config.
- **Selection** (`selection.dfy`): `_filter_files` as a loop over the
  traversal (`FilterFiles`). It is proved equal to a specification `Select`.
  `Select` keeps exactly the non-excluded entries that are included or within
  the limit, as an ordered subsequence of the traversal. It fails, with the
  path of the first offending entry, exactly when some entry is oversized.
  Oversized means not excluded, not included and strictly larger than the
  limit. Exclusion wins over inclusion. Inclusion bypasses the size check.
  An entry exactly at the limit is kept.
- **Content hash** (`content_hash.dfy`): `_multi_file_sha1_hash` as a
  loop that feeds the hash object. The hash state is the sequence of bytes
  fed so far. Only regular files' contents are fed, in list order. Renaming
  leaves the hash input unchanged. For lists of the same shape, the hash
  input determines every file's contents, so a one-byte change changes it.
- **Package id** (`package_id.dfy`): `f"{user}_{basename}_{date}_{hash[-8:]}"`.
  This includes Python's slice behaviour on hashes shorter than eight
  characters. The model also proves that the id splits back into its four
  parts when the user, the date and the hash contain no `_`.
- **Bundle** (`bundle.dfy`): `tar_package` composed from the above. It is
  all or nothing. Both the archive and the hash are computed from the same
  selected list. Renaming files without changing their classification or
  order keeps the package id.

Traversal entries are records `(path, size, isFile, data)`: the path as
`rglob("*")` yields it, `stat().st_size`, `is_file()` and the bytes a
binary read returns. Directories are entries too, because `rglob("*")`
yields them and `_filter_files` does not skip them.

The following are parameters of the model: the gitignore matcher
(`pathspec`), the SHA-1 hex digest, the tar/gzip archiver, the user name
(`epfml.config.ldap`), the directory basename, the `%Y%m%d` date and the
parsed TOML.

`_filter_files` tests exclude before include
(`src/epfml/bundle.py:115-118`), so an entry matching both is skipped. It
also yields directories, because `rglob("*")` yields them.

## Model

| member | source | states |
|---|---|---|
| Config.Merge | src/epfml/bundle.py:60-67 | each key the user config sets replaces the default value whole (lists are replaced, not concatenated); each absent key keeps the default |
| Config.Resolve | src/epfml/bundle.py:60-69 | a missing config file gives exactly the defaults (eleven exclude patterns, no include patterns, 100000); an unparsable one is the only config failure; otherwise the defaults merged with the file's keys |
| Config.OnlySizeKeepsDefaultPatterns | src/epfml/bundle.py:60-67 | a config file setting only `max_file_size` keeps both default pattern lists |
| Config.MergeIsDictUnpacking | src/epfml/bundle.py:67 | the record merge equals right-biased dictionary union of the config dictionaries |
| Selection.KeptEntries | src/epfml/bundle.py:114-126 | every yielded entry comes from the traversal and is not excluded and either included or within the limit |
| Selection.FirstOversized | src/epfml/bundle.py:114-125 | the index of the first entry that makes the filter raise: no earlier entry does, and this one is oversized |
| Selection.Select | src/epfml/bundle.py:71-78 | forcing the generator succeeds iff no entry is oversized; success gives the kept entries; failure names the first oversized entry |
| Selection.FilterFiles | src/epfml/bundle.py:100-126 | the loop over the traversal (skip excluded, yield included, raise on oversized, else yield) computes exactly `Select` |
| Selection.KeptPositions | src/epfml/bundle.py:114-126 | the kept entries are taken from the traversal at increasing positions, and a position is taken iff its entry is kept |
| Selection.KeptEntriesIsOrderedSelection | src/epfml/bundle.py:114-126 | the output is an order-preserving subsequence of the traversal containing exactly the kept positions |
| Selection.KeptInOutput | src/epfml/bundle.py:114-126 | every kept traversal entry appears in the output |
| Selection.ExcludeWins | src/epfml/bundle.py:115-116 | an excluded entry is never yielded and never named by the error, even if included or oversized |
| Selection.IncludeBypassesSize | src/epfml/bundle.py:117-119 | a non-excluded included entry is yielded whatever its size and never named by the error |
| Selection.SizeAtLimitIsKept | src/epfml/bundle.py:120 | a non-excluded entry whose size equals the limit is yielded (the comparison is strict) |
| Selection.OversizedAborts | src/epfml/bundle.py:120-125 | an oversized entry makes the whole filter fail, naming it when no earlier entry is oversized |
| ContentHash.MultiFileSha1Hash | src/epfml/bundle.py:129-136 | the digest is SHA-1 of exactly the bytes `HashInput` gives: the regular files' contents in list order |
| ContentHash.HashInputAppend | src/epfml/bundle.py:132-135 | hashing a concatenated list feeds the first list's bytes followed by the second's |
| ContentHash.NonFileFeedsNothing | src/epfml/bundle.py:133 | a non-file entry anywhere in the list leaves the hash input unchanged |
| ContentHash.HashInputIgnoresPaths | src/epfml/bundle.py:129-136 | lists agreeing on which entries are files and on file contents give the same hash input (renaming is invisible) |
| ContentHash.HashInputDeterminesContents | src/epfml/bundle.py:132-135 | for lists of the same shape, equal hash input implies equal file contents, so changing one byte changes the input |
| PackageId.HashSuffix | src/epfml/bundle.py:89 | `hash[-8:]` is a suffix of the hash of length 8, or the whole hash when shorter |
| PackageId.ComposeId | src/epfml/bundle.py:89 | the id starts with the user and `_`, ends with `_` and the hash suffix, and has the summed length plus three separators |
| PackageId.ParseComposeId | src/epfml/bundle.py:89 | the id splits back into user, basename, date and hash suffix when user, date and hash contain no `_` |
| Bundle.TarPackage | src/epfml/bundle.py:57-91 | the step-by-step packaging (resolve, filter, archive, hash, name) returns exactly `BuildPackage` |
| Bundle.AllOrNothing | src/epfml/bundle.py:65-78 | packaging fails iff the config does not parse or some entry is oversized; on success archive and hash both use the kept entries |
| Bundle.KeptEntriesOfRenamed | src/epfml/bundle.py:114-126 | renaming entries without changing their classification keeps the selected files' shape and contents |
| Bundle.RenamingKeepsId | src/epfml/bundle.py:85-89 | renaming files without changing order or classification keeps success and the package id |

## Left out

- Tar archive creation and extraction (`tar_extract`): the tarfile/gzip
  library is a parameter, `archive`, applied to the selected list. The
  model therefore does not capture that `tar.add` recurses into a yielded
  directory. That recursion archives the directory's whole subtree,
  including entries the filter excluded and, a second time, files yielded
  on their own. Relative archive names (`relative_to`) are not modelled.
- Glob semantics of `pathspec` `GitWildMatchPattern`: the matcher is an
  uninterpreted total parameter over pattern lists and paths. Three
  consequences:
  - A malformed pattern (for example `exclude = ["!"]`) makes
    `PathSpec.from_lines` raise inside `list(...)`, which aborts
    `tar_package`. The model has no error for it and cannot fail there.
  - Nothing in the model says that an empty pattern list matches no path,
    so the model does not show that the default (empty) include list
    force-includes nothing.
  - `max_file_size` is an integer here. The source also accepts a TOML
    float, which its `>` comparison handles.
- The SHA-1 digest itself, TOML parsing, the filesystem traversal and
  `stat`, `datetime.now()`/`strftime` and the user name are inputs. I/O
  errors while reading or stat-ing a file are not modelled.
- Config values of the wrong type and extra keys in `.codepack.toml`: the
  user config is typed with the three keys the packager reads.
- The text of the oversized-file message: the error carries the offending
  path only.
- The key-value store wrapper (`src/mlotools/keyval.py`) and the CLI helpers
  (`src/mlotools/cli_utils.py`) are not part of this model.
