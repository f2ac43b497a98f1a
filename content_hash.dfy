/** `_multi_file_sha1_hash`: what is fed to SHA-1, and in which order.
    The digest itself is a parameter: a function from the bytes fed to
    the hex digest. */
module ContentHash {
  import opened BundleTypes

  /** The bytes the hash object is updated with: the contents of the
      regular files of `files`, in list order. Paths, sizes and
      directories contribute nothing. */
  function HashInput(files: seq<Entry>): seq<byte>
  {
    if files == [] then []
    else
      var last := files[|files| - 1];
      HashInput(files[..|files| - 1]) + (if last.isFile then last.data else [])
  }

  /** `hashlib.sha1()`, updated with each regular file's contents in turn,
      then `hexdigest()`. The hash object's state is the sequence of bytes
      fed so far. */
  method MultiFileSha1Hash(files: seq<Entry>, sha1: seq<byte> -> string) returns (digest: string)
    ensures digest == sha1(HashInput(files))
  {
    var fed: seq<byte> := [];
    for i := 0 to |files|
      invariant fed == HashInput(files[..i])
    {
      assert files[..i + 1][..i] == files[..i];
      if files[i].isFile {
        fed := fed + files[i].data;
      }
    }
    assert files[..|files|] == files;
    digest := sha1(fed);
  }

  /** Hashing two lists one after the other feeds the same bytes as hashing their concatenation. */
  lemma {:induction false} HashInputAppend(a: seq<Entry>, b: seq<Entry>)
    ensures HashInput(a + b) == HashInput(a) + HashInput(b)
    decreases |b|
  {
    if b == [] {
      assert a + b == a;
    } else {
      var n := |b| - 1;
      assert (a + b)[..|a + b| - 1] == a + b[..n];
      HashInputAppend(a, b[..n]);
    }
  }

  /** A non-file entry (a directory) anywhere in the list changes nothing. */
  lemma NonFileFeedsNothing(a: seq<Entry>, e: Entry, b: seq<Entry>)
    requires !e.isFile
    ensures HashInput(a + [e] + b) == HashInput(a + b)
  {
    HashInputAppend(a + [e], b);
    HashInputAppend(a, b);
    assert (a + [e])[..|a + [e]| - 1] == a;
  }

  /** Two lists that agree, position by position, on which entries are
      files and on the contents of those files. */
  ghost predicate SameContents(a: seq<Entry>, b: seq<Entry>)
  {
    |a| == |b|
    && forall i :: 0 <= i < |a| ==>
      a[i].isFile == b[i].isFile && (a[i].isFile ==> a[i].data == b[i].data)
  }

  /** Renaming files (or changing anything but which entries are files and
      what the files hold) leaves the hash input unchanged. */
  lemma {:induction false} HashInputIgnoresPaths(a: seq<Entry>, b: seq<Entry>)
    requires SameContents(a, b)
    ensures HashInput(a) == HashInput(b)
  {
    if a != [] {
      var n := |a| - 1;
      assert SameContents(a[..n], b[..n]);
      HashInputIgnoresPaths(a[..n], b[..n]);
    }
  }

  /** The hash input determines the contents: for lists of the same shape
      (same files, same file lengths), equal hash input means equal contents.
      So changing one byte of one file changes what is hashed. */
  lemma {:induction false} HashInputDeterminesContents(a: seq<Entry>, b: seq<Entry>)
    requires |a| == |b|
    requires forall i :: 0 <= i < |a| ==>
      a[i].isFile == b[i].isFile && (a[i].isFile ==> |a[i].data| == |b[i].data|)
    requires HashInput(a) == HashInput(b)
    ensures SameContents(a, b)
  {
    if a != [] {
      var n := |a| - 1;
      var x := if a[n].isFile then a[n].data else [];
      var y := if b[n].isFile then b[n].data else [];
      var pa := HashInput(a[..n]);
      var pb := HashInput(b[..n]);
      assert pa + x == pb + y;
      assert |pa| == |pb|;
      assert pa == (pa + x)[..|pa|] == (pb + y)[..|pb|] == pb;
      assert x == (pa + x)[|pa|..] == (pb + y)[|pb|..] == y;
      HashInputDeterminesContents(a[..n], b[..n]);
      forall i | 0 <= i < |a|
        ensures a[i].isFile == b[i].isFile && (a[i].isFile ==> a[i].data == b[i].data)
      {
        if i < n {
          assert a[..n][i] == a[i] && b[..n][i] == b[i];
        }
      }
    }
  }
}
