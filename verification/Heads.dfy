/** One recovered head per versioned path. */
module Heads {
  import opened Wrappers
  import opened Lists
  import opened Text
  import opened Intervals
  import opened Observations
  import opened Recovery

  const VERSIONED_PATHS := {"/demand.md", "/outline.md", "/storyline.md", "/worldview.md", "/novel.md"}

  predicate IsVersionedPath(path: string) {
    || path in VERSIONED_PATHS
    || "/character/" <= path || "/storyline/" <= path || "/detail/" <= path
    || "/chapter/" <= path || "/review/" <= path
  }

  predicate IsWriteTool(toolName: string) {
    toolName == "write_file" || toolName == "edit_file"
  }

  predicate IsVersionedWrite(op: ToolInterval) {
    IsWriteTool(op.toolName) && IsVersionedPath(op.path)
  }

  /** The writes to one path, in the order of the list. */
  function WritesTo(operations: seq<ToolInterval>, path: string): (r: seq<ToolInterval>)
    ensures forall a :: a in r <==> a in operations && IsVersionedWrite(a) && a.path == path
  {
    if operations == [] then []
    else (if IsVersionedWrite(operations[0]) && operations[0].path == path then [operations[0]] else [])
         + WritesTo(operations[1..], path)
  }

  function ReadsOf(observations: seq<ReadObservation>, path: string): seq<ReadObservation> {
    if observations == [] then []
    else (if observations[0].path == path then [observations[0]] else []) + ReadsOf(observations[1..], path)
  }

  /** The paths with versions, by name and by directory. */
  lemma VersionedPathMeaning(path: string)
    ensures IsVersionedPath(path) <==>
            || path == "/demand.md" || path == "/outline.md" || path == "/storyline.md" || path == "/worldview.md" || path == "/novel.md"
            || IsInside("character", path) || IsInside("storyline", path) || IsInside("detail", path)
            || IsInside("chapter", path) || IsInside("review", path)
  {
    Inside("character", "/character/", path);
    Inside("storyline", "/storyline/", path);
    Inside("detail", "/detail/", path);
    Inside("chapter", "/chapter/", path);
    Inside("review", "/review/", path);
  }

  ghost predicate IsInside(directory: string, path: string) {
    exists rest :: path == InDirectory(directory, rest)
  }

  lemma Inside(directory: string, prefix: string, path: string)
    requires prefix == "/" + directory + "/"
    ensures prefix <= path <==> IsInside(directory, path)
  {
    if prefix <= path { assert path == InDirectory(directory, path[|prefix|..]); }
  }

  function InDirectory(directory: string, rest: string): string {
    "/" + directory + "/" + rest
  }

  /** The reads of a path are all reads with that path, in the order of the list. */
  lemma {:induction false} ReadsOfPicked(observations: seq<ReadObservation>, path: string) returns (places: seq<nat>)
    ensures Picks(observations, (o: ReadObservation) => o.path == path, places, ReadsOf(observations, path))
  {
    if observations == [] {
      places := [];
    } else {
      var rest := ReadsOfPicked(observations[1..], path);
      PicksFront(observations, (o: ReadObservation) => o.path == path, rest, ReadsOf(observations[1..], path));
      places := if observations[0].path == path then [0] + Shifted(rest) else Shifted(rest);
      assert [] + ReadsOf(observations[1..], path) == ReadsOf(observations[1..], path);
    }
  }

  /** And the writes likewise. */
  predicate WritesThere(a: ToolInterval, path: string) {
    (a.toolName == "write_file" || a.toolName == "edit_file") && IsVersionedPath(a.path) && a.path == path
  }

  lemma {:induction false} WritesToPicked(operations: seq<ToolInterval>, path: string) returns (places: seq<nat>)
    ensures Picks(operations, (a: ToolInterval) => WritesThere(a, path), places, WritesTo(operations, path))
  {
    if operations == [] {
      places := [];
    } else {
      var rest := WritesToPicked(operations[1..], path);
      PicksFront(operations, (a: ToolInterval) => WritesThere(a, path), rest, WritesTo(operations[1..], path));
      places := if WritesThere(operations[0], path) then [0] + Shifted(rest) else Shifted(rest);
      assert [] + WritesTo(operations[1..], path) == WritesTo(operations[1..], path);
    }
  }

  function WrittenPaths(operations: seq<ToolInterval>): set<string> {
    set a | a in operations && IsVersionedWrite(a) :: a.path
  }

  ghost predicate SortedPaths(paths: seq<string>) {
    forall i, j :: 0 <= i < j < |paths| ==> StringLess(paths[i], paths[j])
  }

  function InsertPath(paths: seq<string>, p: string): seq<string> {
    if paths == [] || StringLess(p, paths[0]) then [p] + paths else [paths[0]] + InsertPath(paths[1..], p)
  }

  lemma {:induction false} InsertPathSorted(paths: seq<string>, p: string)
    requires SortedPaths(paths) && p !in paths
    ensures SortedPaths(InsertPath(paths, p))
    ensures forall q :: q in InsertPath(paths, p) <==> q in paths || q == p
  {
    if paths == [] {
    } else if StringLess(p, paths[0]) {
      forall j | 0 <= j < |paths| ensures StringLess(p, paths[j]) {
        if j > 0 { StringLessTransitive(p, paths[0], paths[j]); }
      }
    } else {
      StringLessTrichotomy(p, paths[0]);
      InsertPathSorted(paths[1..], p);
      var tail := InsertPath(paths[1..], p);
      assert paths == [paths[0]] + paths[1..];
      forall j | 0 <= j < |tail| ensures StringLess(paths[0], tail[j]) {
        assert tail[j] in tail;
      }
    }
  }

  method SortPaths(paths: set<string>) returns (r: seq<string>)
    ensures SortedPaths(r) && forall p :: p in r <==> p in paths
  {
    r := [];
    var todo := paths;
    while todo != {}
      invariant todo <= paths && SortedPaths(r)
      invariant forall p :: p in r <==> p in paths - todo
      decreases todo
    {
      var p :| p in todo;
      InsertPathSorted(r, p);
      r := InsertPath(r, p);
      todo := todo - {p};
    }
  }

  /** `r` is the answer of the single-path recovery for `path`. */
  ghost predicate HeadFor(operations: seq<ToolInterval>, observations: seq<ReadObservation>, path: string,
                          r: Result<Head, RecoveryError>)
  {
    ReconstructSpec(path, WritesTo(operations, path), ReadsOf(observations, path), r)
  }

  /** Every head of the list is the answer for its own path. */
  ghost predicate HeadsFor(operations: seq<ToolInterval>, observations: seq<ReadObservation>, heads: seq<Head>) {
    heads == [] || (var n := |heads| - 1;
                    && HeadsFor(operations, observations, heads[..n])
                    && HeadFor(operations, observations, heads[n].path, Ok(heads[n])))
  }

  lemma {:induction false} HeadsForAt(operations: seq<ToolInterval>, observations: seq<ReadObservation>, heads: seq<Head>, i: nat)
    requires HeadsFor(operations, observations, heads) && i < |heads|
    ensures HeadFor(operations, observations, heads[i].path, Ok(heads[i]))
    decreases |heads|
  {
    if i < |heads| - 1 { HeadsForAt(operations, observations, heads[..|heads| - 1], i); }
  }

  function PathsOf(heads: seq<Head>): (paths: seq<string>)
    ensures |paths| == |heads| && forall i :: 0 <= i < |heads| ==> paths[i] == heads[i].path
  {
    seq(|heads|, i requires 0 <= i < |heads| => heads[i].path)
  }

  lemma OneMoreHead(operations: seq<ToolInterval>, observations: seq<ReadObservation>, heads: seq<Head>, h: Head)
    requires HeadsFor(operations, observations, heads) && HeadFor(operations, observations, h.path, Ok(h))
    ensures HeadsFor(operations, observations, heads + [h])
    ensures PathsOf(heads + [h]) == PathsOf(heads) + [h.path]
  {
    HeadsSnoc(heads, h);
  }

  lemma HeadsSnoc(heads: seq<Head>, h: Head)
    ensures |heads + [h]| == |heads| + 1 && (heads + [h])[..|heads|] == heads && (heads + [h])[|heads|] == h
    ensures PathsOf(heads + [h]) == PathsOf(heads) + [h.path]
  {
  }

  lemma TakeOne(paths: seq<string>, i: nat)
    requires i < |paths|
    ensures paths[..i + 1] == paths[..i] + [paths[i]]
  {
  }

  /** The recovery of `path` fails with `error`, and all paths before it gave `earlier`. */
  ghost predicate FailsAt(operations: seq<ToolInterval>, observations: seq<ReadObservation>, path: string,
                          earlier: seq<Head>, error: RecoveryError)
  {
    && path in WrittenPaths(operations)
    && HeadFor(operations, observations, path, Err(error))
    && HeadsFor(operations, observations, earlier)
    && forall p :: p in PathsOf(earlier) <==> p in WrittenPaths(operations) && StringLess(p, path)
  }

  /** Either every versioned path that was written gets exactly one head, in path order,
      or the first path in that order that fails decides the error. */
  method ReconstructHeads(operations: seq<ToolInterval>, observations: seq<ReadObservation>)
    returns (r: Result<seq<Head>, RecoveryError>)
    requires UniqueIds(OpsOf(operations))
    ensures r.Ok? ==> && HeadsFor(operations, observations, r.value) && SortedPaths(PathsOf(r.value))
                      && forall p :: p in PathsOf(r.value) <==> p in WrittenPaths(operations)
    ensures r.Err? ==> exists path, earlier :: FailsAt(operations, observations, path, earlier, r.error)
  {
    var paths := SortPaths(WrittenPaths(operations));
    var heads: seq<Head> := [];
    for i := 0 to |paths|
      invariant HeadsFor(operations, observations, heads)
      invariant PathsOf(heads) == paths[..i]
    {
      var head := ReconstructPath(paths[i], WritesTo(operations, paths[i]), ReadsOf(observations, paths[i]));
      if head.Err? {
        assert paths[i] in paths;
        PathsBefore(paths, i);
        assert FailsAt(operations, observations, paths[i], heads, head.error);
        return Err(head.error);
      }
      OneMoreHead(operations, observations, heads, head.value);
      TakeOne(paths, i);
      heads := heads + [head.value];
    }
    assert paths[..|paths|] == paths;
    return Ok(heads);
  }

  lemma PathsBefore(paths: seq<string>, n: nat)
    requires n < |paths| && SortedPaths(paths)
    ensures forall p :: p in paths[..n] <==> p in paths && StringLess(p, paths[n])
  {
    forall p ensures p in paths[..n] <==> p in paths && StringLess(p, paths[n]) {
      if p in paths && StringLess(p, paths[n]) {
        var j :| 0 <= j < |paths| && paths[j] == p;
        StringLessTrichotomy(p, paths[n]);
        assert j < n;
      }
    }
  }
}
