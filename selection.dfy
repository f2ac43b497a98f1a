/** `_filter_files`: which traversal entries go into a package, and when
    the whole package is refused because of an oversized file. */
module Selection {
  import opened BundleTypes
  import opened Config

  /** `pathspec.PathSpec.from_lines(GitWildMatchPattern, patterns).match_file(path)`:
      the gitignore-style matcher, a foreign library, left uninterpreted. */
  type Matcher = (seq<string>, string) -> bool

  predicate Excluded(p: Policy, matches: Matcher, e: Entry)
  {
    matches(p.excludeList, e.path)
  }

  predicate Included(p: Policy, matches: Matcher, e: Entry)
  {
    matches(p.includeList, e.path)
  }

  /** An entry that makes the filter raise: not excluded, not included and over the limit. */
  predicate Oversized(p: Policy, matches: Matcher, e: Entry)
  {
    !Excluded(p, matches, e) && !Included(p, matches, e) && e.size > p.maxFileSize
  }

  /** An entry the filter yields: not excluded, and included or within the limit. */
  predicate Kept(p: Policy, matches: Matcher, e: Entry)
  {
    !Excluded(p, matches, e) && (Included(p, matches, e) || e.size <= p.maxFileSize)
  }

  /** The entries of `s` that the filter yields, in traversal order. */
  function KeptEntries(s: seq<Entry>, p: Policy, matches: Matcher): (out: seq<Entry>)
    ensures |out| <= |s|
    ensures forall e :: e in out ==> e in s && Kept(p, matches, e)
  {
    if s == [] then []
    else
      var rest := KeptEntries(s[..|s| - 1], p, matches);
      if Kept(p, matches, s[|s| - 1]) then rest + [s[|s| - 1]] else rest
  }

  /** Index of the first oversized entry of `s`, or |s| when there is none. */
  function FirstOversized(s: seq<Entry>, p: Policy, matches: Matcher): (k: nat)
    ensures k <= |s|
    ensures forall j :: 0 <= j < k ==> !Oversized(p, matches, s[j])
    ensures k < |s| ==> Oversized(p, matches, s[k])
  {
    if s == [] then 0
    else if Oversized(p, matches, s[0]) then 0
    else 1 + FirstOversized(s[1..], p, matches)
  }

  /** What `list(_filter_files(...))` gives: all of the kept entries, or the
      error raised at the first oversized entry (nothing partial). */
  function Select(s: seq<Entry>, p: Policy, matches: Matcher): (r: Result<seq<Entry>, Error>)
    ensures r.Success? <==> forall i :: 0 <= i < |s| ==> !Oversized(p, matches, s[i])
    ensures r.Success? ==> r.value == KeptEntries(s, p, matches)
    ensures r.Failure? ==>
      exists k :: 0 <= k < |s| && Oversized(p, matches, s[k])
        && (forall j :: 0 <= j < k ==> !Oversized(p, matches, s[j]))
        && r.error == OversizedFile(s[k].path)
  {
    var k := FirstOversized(s, p, matches);
    if k < |s| then Failure(OversizedFile(s[k].path)) else Success(KeptEntries(s, p, matches))
  }

  /** The generator of `_filter_files`, forced by `list()`: walk the
      traversal in order, skip excluded entries, yield included ones
      whatever their size, raise at an entry over the limit, yield the rest. */
  method FilterFiles(traversal: seq<Entry>, p: Policy, matches: Matcher)
    returns (r: Result<seq<Entry>, Error>)
    ensures r == Select(traversal, p, matches)
  {
    var yielded: seq<Entry> := [];
    for i := 0 to |traversal|
      invariant yielded == KeptEntries(traversal[..i], p, matches)
      invariant forall j :: 0 <= j < i ==> !Oversized(p, matches, traversal[j])
    {
      assert traversal[..i + 1][..i] == traversal[..i];
      var file := traversal[i];
      if matches(p.excludeList, file.path) {
        continue;
      }
      if matches(p.includeList, file.path) {
        yielded := yielded + [file];
        continue;
      }
      if file.size > p.maxFileSize {
        return Failure(OversizedFile(file.path));
      }
      yielded := yielded + [file];
    }
    assert traversal[..|traversal|] == traversal;
    r := Success(yielded);
  }

  // The output as an ordered selection of the traversal.

  /** `idx` lists, in increasing order, the positions in `s` that `sub` was taken from. */
  ghost predicate Embeds<T>(sub: seq<T>, s: seq<T>, idx: seq<int>)
  {
    |idx| == |sub|
    && (forall k :: 0 <= k < |idx| ==> 0 <= idx[k] < |s| && sub[k] == s[idx[k]])
    && (forall k, l :: 0 <= k < l < |idx| ==> idx[k] < idx[l])
  }

  /** `out` is taken from `s` in order, and the positions taken are exactly the kept ones. */
  ghost predicate SelectsKept(s: seq<Entry>, out: seq<Entry>, idx: seq<int>, p: Policy, matches: Matcher)
  {
    Embeds(out, s, idx) && forall i :: 0 <= i < |s| ==> (i in idx <==> Kept(p, matches, s[i]))
  }

  lemma {:induction false} KeptEntriesIsOrderedSelection(s: seq<Entry>, p: Policy, matches: Matcher)
    ensures exists idx :: SelectsKept(s, KeptEntries(s, p, matches), idx, p, matches)
  {
    var idx := KeptPositions(s, p, matches);
  }

  /** The positions the filter keeps, built alongside KeptEntries. */
  lemma {:induction false} KeptPositions(s: seq<Entry>, p: Policy, matches: Matcher) returns (idx: seq<int>)
    ensures SelectsKept(s, KeptEntries(s, p, matches), idx, p, matches)
  {
    if s == [] {
      idx := [];
    } else {
      var n := |s| - 1;
      var idx0 := KeptPositions(s[..n], p, matches);
      EmbedsInLonger(KeptEntries(s[..n], p, matches), s, idx0);
      if Kept(p, matches, s[n]) {
        idx := idx0 + [n];
        EmbedsSnoc(KeptEntries(s[..n], p, matches), s, idx0);
      } else {
        idx := idx0;
      }
      SamePositions(s, p, matches, idx0, idx);
    }
  }

  /** Whether a position is taken agrees with Kept on the last element and,
      by the selection of the shorter sequence, on all the others. */
  lemma SamePositions(s: seq<Entry>, p: Policy, matches: Matcher, idx0: seq<int>, idx: seq<int>)
    requires s != []
    requires forall i :: 0 <= i < |s| - 1 ==> (i in idx0 <==> Kept(p, matches, s[..|s| - 1][i]))
    requires idx == idx0 || idx == idx0 + [|s| - 1]
    requires |s| - 1 !in idx0
    requires |s| - 1 in idx <==> Kept(p, matches, s[|s| - 1])
    ensures forall i :: 0 <= i < |s| ==> (i in idx <==> Kept(p, matches, s[i]))
  {
    var n := |s| - 1;
    forall i | 0 <= i < |s|
      ensures i in idx <==> Kept(p, matches, s[i])
    {
      if i < n {
        assert s[..n][i] == s[i];
        assert i in idx <==> i in idx0;
      }
    }
  }

  /** A selection from all but the last element is a selection from the
      whole sequence that does not use the last position. */
  lemma EmbedsInLonger<T>(sub: seq<T>, s: seq<T>, idx: seq<int>)
    requires s != [] && Embeds(sub, s[..|s| - 1], idx)
    ensures Embeds(sub, s, idx)
    ensures |s| - 1 !in idx
  {
    var n := |s| - 1;
    forall k | 0 <= k < |idx|
      ensures 0 <= idx[k] < n && sub[k] == s[idx[k]]
    {
      assert s[..n][idx[k]] == s[idx[k]];
    }
  }

  /** Taking the last element as well extends the selection by its position. */
  lemma EmbedsSnoc<T>(sub: seq<T>, s: seq<T>, idx: seq<int>)
    requires s != [] && Embeds(sub, s[..|s| - 1], idx)
    ensures Embeds(sub + [s[|s| - 1]], s, idx + [|s| - 1])
  {
    EmbedsInLonger(sub, s, idx);
    var n := |s| - 1;
    var idx' := idx + [n];
    forall k | 0 <= k < |idx'|
      ensures 0 <= idx'[k] < |s| && (sub + [s[n]])[k] == s[idx'[k]]
    {
      if k < |idx| {
        assert idx'[k] == idx[k];
      }
    }
  }

  /** Exclude wins: an excluded entry is never yielded and never the cause of
      a failure, even when it also matches include or is over the limit. */
  lemma ExcludeWins(s: seq<Entry>, p: Policy, matches: Matcher, e: Entry)
    requires e in s && matches(p.excludeList, e.path)
    ensures Select(s, p, matches).Success? ==> e !in Select(s, p, matches).value
    ensures Select(s, p, matches).Failure? ==> Select(s, p, matches).error != OversizedFile(e.path)
  {
  }

  /** Include bypasses the size check: a non-excluded included entry is
      yielded whatever its size, and is never the cause of a failure. */
  lemma {:induction false} IncludeBypassesSize(s: seq<Entry>, p: Policy, matches: Matcher, i: nat)
    requires i < |s| && !matches(p.excludeList, s[i].path) && matches(p.includeList, s[i].path)
    ensures Select(s, p, matches).Success? ==> s[i] in Select(s, p, matches).value
    ensures Select(s, p, matches).Failure? ==> Select(s, p, matches).error != OversizedFile(s[i].path)
  {
    KeptInOutput(s, p, matches, i);
  }

  /** The limit is strict: an entry exactly at the limit is yielded. */
  lemma {:induction false} SizeAtLimitIsKept(s: seq<Entry>, p: Policy, matches: Matcher, i: nat)
    requires i < |s| && !matches(p.excludeList, s[i].path) && s[i].size == p.maxFileSize
    ensures Select(s, p, matches).Success? ==> s[i] in Select(s, p, matches).value
  {
    KeptInOutput(s, p, matches, i);
  }

  /** Every kept entry of the traversal appears in the filter's output. */
  lemma {:induction false} KeptInOutput(s: seq<Entry>, p: Policy, matches: Matcher, i: nat)
    requires i < |s| && Kept(p, matches, s[i])
    ensures s[i] in KeptEntries(s, p, matches)
  {
    var n := |s| - 1;
    if i < n {
      KeptInOutput(s[..n], p, matches, i);
    }
  }

  /** An oversized entry aborts the whole filter, and the error names the
      first oversized entry of the traversal (this one, when none precedes it). */
  lemma OversizedAborts(s: seq<Entry>, p: Policy, matches: Matcher, i: nat)
    requires i < |s| && Oversized(p, matches, s[i])
    ensures Select(s, p, matches).Failure?
    ensures (forall j :: 0 <= j < i ==> !Oversized(p, matches, s[j]))
      ==> Select(s, p, matches) == Failure(OversizedFile(s[i].path))
  {
  }
}
