/** Values shared by the packaging model: optional values, results, bytes,
    the entries of a directory traversal and the errors packaging can raise. */
module BundleTypes {

  datatype Option<+T> = None | Some(value: T)

  /** A packaging step either succeeds with a value or fails with an error. */
  datatype Result<+T, +E> = Success(value: T) | Failure(error: E)

  newtype byte = x: int | 0 <= x < 256

  /** One path yielded by `directory.rglob("*")`: the path as yielded, the
      `st_size` that `stat()` reports for it, whether `is_file()` holds,
      and the bytes that reading it in binary mode returns (only read for
      regular files). Directories are entries too. */
  datatype Entry = Entry(path: string, size: nat, isFile: bool, data: seq<byte>)

  /** The errors that abort `tar_package`. */
  datatype Error =
    | ConfigError              // `.codepack.toml` exists but cannot be parsed
    | OversizedFile(path: string)  // an entry (file or directory) over the size limit, neither included nor excluded
}
