/** The package identifier `f"{user}_{basename}_{date}_{hash[-8:]}"`,
    and how it splits back into its parts. */
module PackageId {
  import opened BundleTypes

  /** Python's `hash[-8:]`: the last eight characters, or the whole
      string when it is shorter than eight. */
  function HashSuffix(hash: string): (r: string)
    ensures |r| == if |hash| < 8 then |hash| else 8
    ensures hash == hash[..|hash| - |r|] + r
  {
    if |hash| < 8 then hash else hash[|hash| - 8..]
  }

  /** The identifier of a package built by `user` from the directory
      `basename` on `date` (formatted `%Y%m%d`) with content hash `hash`. */
  function ComposeId(user: string, basename: string, date: string, hash: string): (id: string)
    ensures |id| == |user| + |basename| + |date| + |HashSuffix(hash)| + 3
    ensures id[..|user| + 1] == user + "_"
    ensures id[|id| - |HashSuffix(hash)| - 1..] == "_" + HashSuffix(hash)
  {
    user + "_" + basename + "_" + date + "_" + HashSuffix(hash)
  }

  /** The position of the last `c` in `s`, or -1 when there is none. */
  function LastIndexOf(s: string, c: char): (k: int)
    ensures -1 <= k < |s|
    ensures k >= 0 ==> s[k] == c
    ensures forall j :: k < j < |s| ==> s[j] != c
  {
    if s == [] then -1
    else if s[|s| - 1] == c then |s| - 1
    else LastIndexOf(s[..|s| - 1], c)
  }

  /** The position of the first `c` in `s`, or |s| when there is none. */
  function FirstIndexOf(s: string, c: char): (k: nat)
    ensures k <= |s|
    ensures k < |s| ==> s[k] == c
    ensures forall j :: 0 <= j < k ==> s[j] != c
  {
    if s == [] then 0
    else if s[0] == c then 0
    else 1 + FirstIndexOf(s[1..], c)
  }

  /** Split around the last `c`, as Python's `s.rsplit(c, 1)`. */
  function SplitLast(s: string, c: char): Option<(string, string)>
  {
    var k := LastIndexOf(s, c);
    if k < 0 then None else Some((s[..k], s[k + 1..]))
  }

  /** Split around the first `c`, as Python's `s.split(c, 1)`. */
  function SplitFirst(s: string, c: char): Option<(string, string)>
  {
    var k := FirstIndexOf(s, c);
    if k == |s| then None else Some((s[..k], s[k + 1..]))
  }

  /** Read an identifier back as (user, basename, date, hash suffix): the
      last two fields from the right, the user up to the first separator,
      so that the basename may itself contain separators. */
  function ParseId(id: string): Option<(string, string, string, string)>
  {
    match SplitLast(id, '_')
    case None => None
    case Some((head, suffix)) =>
      match SplitLast(head, '_')
      case None => None
      case Some((front, date)) =>
        match SplitFirst(front, '_')
        case None => None
        case Some((user, basename)) => Some((user, basename, date, suffix))
  }

  lemma SplitLastOfJoin(x: string, c: char, y: string)
    requires c !in y
    ensures SplitLast(x + [c] + y, c) == Some((x, y))
  {
    var s := x + [c] + y;
    var k := LastIndexOf(s, c);
    assert s[|x|] == c;
    assert k == |x|;
    assert s[..k] == x && s[k + 1..] == y;
  }

  lemma SplitFirstOfJoin(x: string, c: char, y: string)
    requires c !in x
    ensures SplitFirst(x + [c] + y, c) == Some((x, y))
  {
    var s := x + [c] + y;
    var k := FirstIndexOf(s, c);
    assert s[|x|] == c;
    assert k == |x|;
    assert s[..k] == x && s[k + 1..] == y;
  }

  /** The identifier splits back into its parts whenever the user, the date
      and the hash hold no separator, as a login name, a `%Y%m%d` date and
      a hex digest do; the basename may contain anything. */
  lemma ParseComposeId(user: string, basename: string, date: string, hash: string)
    requires '_' !in user && '_' !in date && '_' !in hash
    ensures ParseId(ComposeId(user, basename, date, hash)) == Some((user, basename, date, HashSuffix(hash)))
  {
    var suffix := HashSuffix(hash);
    assert '_' !in suffix by {
      forall j | 0 <= j < |suffix| ensures suffix[j] != '_' {
        assert suffix[j] == hash[|hash| - |suffix| + j];
      }
    }
    var front := user + "_" + basename;
    var head := front + "_" + date;
    assert ComposeId(user, basename, date, hash) == head + ['_'] + suffix;
    SplitLastOfJoin(head, '_', suffix);
    assert head == front + ['_'] + date;
    SplitLastOfJoin(front, '_', date);
    assert front == user + ['_'] + basename;
    SplitFirstOfJoin(user, '_', basename);
  }
}
