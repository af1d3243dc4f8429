/**
 * File discovery for the logs agent (`FileProvider.FilesToTail`): the sources are
 * walked in order, a literal path gives one file, a wildcard path is expanded by
 * `filepath.Glob`, and the walk stops once `filesLimit` files have been found.
 * Glob is an oracle; what it reports about the filesystem is not modelled.
 */
module FileProvider {
  import opened Wrappers
  import opened LogsConfig

  /** A file to tail, with the source whose path produced it (`NewFile`). */
  datatype File = File(path: string, source: LogSource)

  /** What `filepath.Glob` returns: `ErrBadPattern`, or the matches in its own order. */
  datatype GlobResult = BadPattern | Matches(paths: seq<string>)

  /** The two errors a wildcard source can record on its status. */
  datatype GlobFailure = MalformedPattern | NoMatch

  /** A `Status.Error` call on the source at `sourceIndex`, for `pattern`. */
  datatype StatusError = StatusError(sourceIndex: nat, failure: GlobFailure, pattern: string)

  /** `FileProvider`: the configured sources and the ceiling on the number of files. */
  datatype Provider = Provider(sources: seq<LogSource>, filesLimit: int)

  /** The characters that make a path a Glob pattern. */
  const Wildcards: string := "*?["

  /** `containsWildcards` (`strings.ContainsAny(path, "*?[")`). */
  function ContainsWildcards(path: string): (r: bool)
    ensures r <==> exists i | 0 <= i < |path| :: path[i] in Wildcards
  {
    if path == [] then false
    else if path[0] in Wildcards then true
    else
      var rest := ContainsWildcards(path[1..]);
      assert forall i | 1 <= i < |path| :: path[i] == path[1..][i - 1];
      rest
  }

  /** One `File` per Glob match, in Glob's order, all carrying `source`. */
  function FilesOf(paths: seq<string>, source: LogSource): (r: seq<File>)
    ensures |r| == |paths|
    ensures forall k | 0 <= k < |r| :: r[k] == File(paths[k], source)
  {
    seq(|paths|, k requires 0 <= k < |paths| => File(paths[k], source))
  }

  /** The files one source contributes before the ceiling is applied: its own path
      when it is literal (Glob is not consulted), otherwise Glob's matches. */
  function Contribution(source: LogSource, glob: string -> GlobResult): seq<File>
  {
    if !ContainsWildcards(source.path) then [File(source.path, source)]
    else
      match glob(source.path)
      case BadPattern => []
      case Matches(paths) => FilesOf(paths, source)
  }

  /** The paths of `files`, in order. */
  function PathsOf(files: seq<File>): seq<string>
  {
    if files == [] then [] else [files[0].path] + PathsOf(files[1..])
  }

  /** Reading the paths back from a source's contribution gives its literal path, or exactly
      Glob's matches in Glob's order (none for a malformed pattern); every file carries the
      source. */
  lemma {:induction false} ContributionPaths(source: LogSource, glob: string -> GlobResult)
    ensures PathsOf(Contribution(source, glob)) ==
      if !ContainsWildcards(source.path) then [source.path]
      else if glob(source.path).Matches? then glob(source.path).paths
      else []
    ensures forall k | 0 <= k < |Contribution(source, glob)| :: Contribution(source, glob)[k].source == source
  {
    if ContainsWildcards(source.path) && glob(source.path).Matches? {
      PathsOfFilesOf(glob(source.path).paths, source);
    }
  }

  /** `FilesOf` keeps the paths it is given, in order. */
  lemma {:induction false} PathsOfFilesOf(paths: seq<string>, source: LogSource)
    ensures PathsOf(FilesOf(paths, source)) == paths
  {
    if paths != [] {
      assert FilesOf(paths, source)[1..] == FilesOf(paths[1..], source);
      PathsOfFilesOf(paths[1..], source);
    }
  }

  /** The error a source records, if any: only a wildcard source can fail, and it
      fails exactly when its expansion contributes nothing. */
  function FailureOf(source: LogSource, glob: string -> GlobResult): (r: Option<GlobFailure>)
    ensures r.Some? <==> ContainsWildcards(source.path) && Contribution(source, glob) == []
    ensures r == Some(MalformedPattern) <==> ContainsWildcards(source.path) && glob(source.path) == BadPattern
  {
    if !ContainsWildcards(source.path) then None
    else
      match glob(source.path)
      case BadPattern => Some(MalformedPattern)
      case Matches(paths) => if paths == [] then Some(NoMatch) else None
  }

  /** `path` is one that `source` can produce: its literal path, or one of Glob's matches. */
  predicate Produces(source: LogSource, glob: string -> GlobResult, path: string)
  {
    if !ContainsWildcards(source.path) then path == source.path
    else glob(source.path).Matches? && path in glob(source.path).paths
  }

  /** The contributions of `sources`, concatenated in source order. */
  function AllFiles(sources: seq<LogSource>, glob: string -> GlobResult): seq<File>
  {
    if sources == [] then []
    else AllFiles(sources[..|sources| - 1], glob) + Contribution(sources[|sources| - 1], glob)
  }

  /** The status errors recorded while walking `sources`, in source order. */
  function ErrorsOf(sources: seq<LogSource>, glob: string -> GlobResult): (r: seq<StatusError>)
    ensures forall k | 0 <= k < |r| ::
      && r[k].sourceIndex < |sources|
      && FailureOf(sources[r[k].sourceIndex], glob) == Some(r[k].failure)
      && r[k].pattern == sources[r[k].sourceIndex].path
    ensures forall k, l | 0 <= k < l < |r| :: r[k].sourceIndex < r[l].sourceIndex
  {
    if sources == [] then []
    else
      var i := |sources| - 1;
      var init := ErrorsOf(sources[..i], glob);
      assert forall k | 0 <= k < |init| :: sources[..i][init[k].sourceIndex] == sources[init[k].sourceIndex];
      match FailureOf(sources[i], glob)
      case None => init
      case Some(f) => init + [StatusError(i, f, sources[i].path)]
  }

  /** The indices of the sources whose path was handed to Glob, in walk order. */
  function GlobbedOf(sources: seq<LogSource>): (r: seq<nat>)
    ensures forall k: int :: k in r <==> 0 <= k < |sources| && ContainsWildcards(sources[k].path)
    ensures forall k, l | 0 <= k < l < |r| :: r[k] < r[l]
  {
    if sources == [] then []
    else
      var i := |sources| - 1;
      var init := GlobbedOf(sources[..i]);
      assert forall k: int :: k in init <==> 0 <= k < i && ContainsWildcards(sources[k].path) by {
        assert forall k | 0 <= k < i :: sources[..i][k] == sources[k];
      }
      assert forall k | 0 <= k < |init| :: init[k] < i by {
        assert forall k | 0 <= k < |init| :: init[k] in init;
      }
      if ContainsWildcards(sources[i].path) then init + [i] else init
  }

  /** The first `n` elements of `s` (none when `n` is not positive, all when `s` is shorter). */
  function Take(s: seq<File>, n: int): (r: seq<File>)
    ensures r <= s
    ensures |r| == if n <= 0 then 0 else if n < |s| then n else |s|
  {
    if n <= 0 then [] else if n < |s| then s[..n] else s
  }

  /** The number of sources the walk examines, counting on from source `i`: it
      stops at the first source reached with `limit` files or more already found. */
  function ExaminedFrom(sources: seq<LogSource>, glob: string -> GlobResult, limit: int, i: nat): (n: nat)
    requires i <= |sources|
    ensures i <= n <= |sources|
    ensures n == |sources| || |AllFiles(sources[..n], glob)| >= limit
    ensures forall k | i <= k < n :: |AllFiles(sources[..k], glob)| < limit
    decreases |sources| - i
  {
    if i == |sources| || |AllFiles(sources[..i], glob)| >= limit then i
    else ExaminedFrom(sources, glob, limit, i + 1)
  }

  /** The number of sources `FilesToTail` examines. */
  function Examined(p: Provider, glob: string -> GlobResult): nat
  {
    ExaminedFrom(p.sources, glob, p.filesLimit, 0)
  }

  /** `FilesToTail`: at most `filesLimit` files, taken in source order from the
      sources' contributions; the errors are the status errors of the examined
      sources, and `globbed` lists the sources whose pattern went to Glob. */
  method FilesToTail(p: Provider, glob: string -> GlobResult)
    returns (files: seq<File>, errors: seq<StatusError>, globbed: seq<nat>)
    ensures files == Take(AllFiles(p.sources, glob), p.filesLimit)
    ensures p.filesLimit >= 0 ==> |files| <= p.filesLimit
    ensures errors == ErrorsOf(p.sources[..Examined(p, glob)], glob)
    ensures globbed == GlobbedOf(p.sources[..Examined(p, glob)])
  {
    var sources := p.sources;
    var limit := p.filesLimit;
    files, errors, globbed := [], [], [];
    var i := 0;
    while i < |sources| && |files| < limit
      invariant i <= |sources|
      invariant files == Take(AllFiles(sources[..i], glob), limit)
      invariant errors == ErrorsOf(sources[..i], glob)
      invariant globbed == GlobbedOf(sources[..i])
      invariant ExaminedFrom(sources, glob, limit, i) == Examined(p, glob)
    {
      // Below the ceiling, nothing walked so far has been cut off.
      assert files == AllFiles(sources[..i], glob);
      assert ExaminedFrom(sources, glob, limit, i) == ExaminedFrom(sources, glob, limit, i + 1);
      var next, newErrors, newGlobbed := ExamineSource(files, sources[i], i, limit, glob);
      AllFilesStep(sources, glob, i);
      files, errors, globbed := next, errors + newErrors, globbed + newGlobbed;
      i := i + 1;
    }
    TakeOfPrefix(sources, glob, limit, i);
  }

  /** One turn of the walk, on source `i`: a literal path is appended as it is; a wildcard
      path goes to Glob, whose failure is recorded and whose matches are appended while
      there is room. Returns the new files and what the turn records. */
  method ExamineSource(files: seq<File>, source: LogSource, i: nat, limit: int, glob: string -> GlobResult)
    returns (next: seq<File>, newErrors: seq<StatusError>, newGlobbed: seq<nat>)
    requires |files| < limit
    ensures next == Take(files + Contribution(source, glob), limit)
    ensures newErrors == match FailureOf(source, glob)
                         case None => []
                         case Some(f) => [StatusError(i, f, source.path)]
    ensures newGlobbed == if ContainsWildcards(source.path) then [i] else []
  {
    var path := source.path;
    next, newErrors, newGlobbed := files, [], [];
    if !ContainsWildcards(path) {
      next := files + [File(path, source)];
      return;
    }
    newGlobbed := [i];
    var result := glob(path);
    match result
    case BadPattern =>
      newErrors := [StatusError(i, MalformedPattern, path)];
    case Matches(paths) =>
      if |paths| == 0 {
        newErrors := [StatusError(i, NoMatch, path)];
      } else {
        next := AppendMatches(files, paths, source, limit);
      }
  }

  /** The inner loop of `FilesToTail`: appends Glob's matches one by one while
      there is room, so the result is the ceiling applied to the whole expansion. */
  method AppendMatches(files: seq<File>, paths: seq<string>, source: LogSource, limit: int)
    returns (result: seq<File>)
    requires |files| < limit
    ensures result == Take(files + FilesOf(paths, source), limit)
  {
    ghost var all := files + FilesOf(paths, source);
    result := files;
    var j := 0;
    while j < |paths| && |result| < limit
      invariant 0 <= j <= |paths|
      invariant result == all[..|files| + j]
      invariant |result| <= limit
    {
      result := result + [File(paths[j], source)];
      j := j + 1;
    }
  }

  /** Walking one more source appends its contribution. */
  lemma AllFilesStep(sources: seq<LogSource>, glob: string -> GlobResult, i: nat)
    requires i < |sources|
    ensures AllFiles(sources[..i + 1], glob) == AllFiles(sources[..i], glob) + Contribution(sources[i], glob)
    ensures ErrorsOf(sources[..i + 1], glob)
         == ErrorsOf(sources[..i], glob)
            + (match FailureOf(sources[i], glob)
               case None => []
               case Some(f) => [StatusError(i, f, sources[i].path)])
    ensures GlobbedOf(sources[..i + 1]) == GlobbedOf(sources[..i]) + (if ContainsWildcards(sources[i].path) then [i] else [])
  {
    assert sources[..i + 1][..i] == sources[..i];
  }

  /** Walking more sources only appends files: the walk over a prefix of the sources is a
      prefix of the whole walk. */
  lemma {:induction false} AllFilesGrows(sources: seq<LogSource>, glob: string -> GlobResult, i: nat)
    requires i <= |sources|
    ensures AllFiles(sources[..i], glob) <= AllFiles(sources, glob)
    decreases |sources|
  {
    if i == |sources| {
      assert sources[..i] == sources;
    } else {
      var init := sources[..|sources| - 1];
      assert init[..i] == sources[..i];
      AllFilesGrows(init, glob, i);
      var p, q := AllFiles(sources[..i], glob), AllFiles(init, glob);
      var c := Contribution(sources[|sources| - 1], glob);
      assert AllFiles(sources, glob) == q + c;
      assert q <= q + c;
    }
  }

  /** Stopping the walk early loses nothing: once the examined sources have
      produced `limit` files, the later ones cannot change the first `limit`. */
  lemma TakeOfPrefix(sources: seq<LogSource>, glob: string -> GlobResult, limit: int, i: nat)
    requires i <= |sources|
    requires i == |sources| || |AllFiles(sources[..i], glob)| >= limit
    ensures Take(AllFiles(sources[..i], glob), limit) == Take(AllFiles(sources, glob), limit)
  {
    if i == |sources| {
      assert sources[..i] == sources;
    } else {
      AllFilesGrows(sources, glob, i);
      TakeOfLonger(AllFiles(sources[..i], glob), AllFiles(sources, glob), limit);
    }
  }

  /** The first `n` elements of a sequence are those of any extension of it that is at
      least `n` long. */
  lemma TakeOfLonger(s: seq<File>, t: seq<File>, n: int)
    requires s <= t && |s| >= n
    ensures Take(s, n) == Take(t, n)
  {
    if 0 < n {
      assert t[..n] == s[..n];
    }
  }

  /** Every file of the walk carries a source of the provider and a path that source produces. */
  lemma {:induction false} AllFilesProvenance(sources: seq<LogSource>, glob: string -> GlobResult)
    ensures forall f | f in AllFiles(sources, glob) ::
      exists k | 0 <= k < |sources| :: f.source == sources[k] && Produces(sources[k], glob, f.path)
  {
    if sources != [] {
      var i := |sources| - 1;
      AllFilesProvenance(sources[..i], glob);
      forall f | f in AllFiles(sources, glob)
        ensures exists k | 0 <= k < |sources| :: f.source == sources[k] && Produces(sources[k], glob, f.path)
      {
        if f in AllFiles(sources[..i], glob) {
          var k :| 0 <= k < i && f.source == sources[..i][k] && Produces(sources[..i][k], glob, f.path);
          assert sources[..i][k] == sources[k];
        } else {
          var c := Contribution(sources[i], glob);
          assert f in c;
          var m :| 0 <= m < |c| && c[m] == f;
          assert f.source == sources[i] && Produces(sources[i], glob, f.path);
        }
      }
    }
  }

  /** The result of `FilesToTail` only holds files that its sources produce. */
  lemma ResultProvenance(p: Provider, glob: string -> GlobResult, f: File)
    requires f in Take(AllFiles(p.sources, glob), p.filesLimit)
    ensures exists k | 0 <= k < |p.sources| :: f.source == p.sources[k] && Produces(p.sources[k], glob, f.path)
  {
    var all := AllFiles(p.sources, glob);
    var t := Take(all, p.filesLimit);
    var m :| 0 <= m < |t| && t[m] == f;
    assert all[m] == f;
    AllFilesProvenance(p.sources, glob);
  }

  /** One step of the walk's error list: it extends the list of the earlier sources, by
      one error naming the last source when that source fails. */
  lemma ErrorsOfStep(sources: seq<LogSource>, glob: string -> GlobResult)
    requires sources != []
    ensures ErrorsOf(sources[..|sources| - 1], glob) <= ErrorsOf(sources, glob)
    ensures FailureOf(sources[|sources| - 1], glob).Some? ==>
      ErrorsOf(sources, glob)[|ErrorsOf(sources, glob)| - 1].sourceIndex == |sources| - 1
  {
  }

  /** Walking more sources only appends errors. */
  lemma {:induction false} ErrorsOfGrows(sources: seq<LogSource>, glob: string -> GlobResult, j: nat)
    requires j <= |sources|
    ensures ErrorsOf(sources[..j], glob) <= ErrorsOf(sources, glob)
    decreases |sources|
  {
    if j == |sources| {
      assert sources[..j] == sources;
    } else {
      var init := sources[..|sources| - 1];
      assert init[..j] == sources[..j];
      ErrorsOfGrows(init, glob, j);
      ErrorsOfStep(sources, glob);
    }
  }

  /** A failing source is recorded: some error of the walk names it. */
  lemma FailureIsRecorded(sources: seq<LogSource>, glob: string -> GlobResult, k: nat)
    requires k < |sources|
    requires FailureOf(sources[k], glob).Some?
    ensures exists m | 0 <= m < |ErrorsOf(sources, glob)| :: ErrorsOf(sources, glob)[m].sourceIndex == k
  {
    var upTo := sources[..k + 1];
    assert upTo[|upTo| - 1] == sources[k];
    ErrorsOfStep(upTo, glob);
    ErrorsOfGrows(sources, glob, k + 1);
    var e := ErrorsOf(upTo, glob);
    assert ErrorsOf(sources, glob)[|e| - 1] == e[|e| - 1];
  }

  /** A failing source records exactly one error, and a source that does not fail records none. */
  lemma EveryFailureIsReported(sources: seq<LogSource>, glob: string -> GlobResult, k: nat)
    requires k < |sources|
    ensures FailureOf(sources[k], glob).Some?
        <==> exists e | e in ErrorsOf(sources, glob) :: e.sourceIndex == k
    ensures forall m, l | 0 <= m < l < |ErrorsOf(sources, glob)| ::
        ErrorsOf(sources, glob)[m].sourceIndex != ErrorsOf(sources, glob)[l].sourceIndex
  {
    var errs := ErrorsOf(sources, glob);
    if FailureOf(sources[k], glob).Some? {
      FailureIsRecorded(sources, glob, k);
      var m :| 0 <= m < |errs| && errs[m].sourceIndex == k;
      assert errs[m] in errs;
    } else {
      forall e | e in errs ensures e.sourceIndex != k {
        var m :| 0 <= m < |errs| && errs[m] == e;
      }
    }
  }

  /** A source that fails contributes nothing, so the walk still reaches the next source. */
  lemma FailureDoesNotStopTheWalk(p: Provider, glob: string -> GlobResult, k: nat)
    requires k < Examined(p, glob) && k + 1 < |p.sources|
    requires FailureOf(p.sources[k], glob).Some?
    ensures k + 1 < Examined(p, glob)
  {
    var s := p.sources;
    assert s[..k + 1][..k] == s[..k];
    assert AllFiles(s[..k + 1], glob) == AllFiles(s[..k], glob);
  }

  /** A literal source is never handed to Glob and contributes exactly its own path. */
  lemma LiteralSourceContributesItself(sources: seq<LogSource>, glob: string -> GlobResult, k: nat)
    requires k < |sources| && !ContainsWildcards(sources[k].path)
    ensures AllFiles(sources[..k + 1], glob) == AllFiles(sources[..k], glob) + [File(sources[k].path, sources[k])]
    ensures k !in GlobbedOf(sources)
  {
    AllFilesStep(sources, glob, k);
  }

  /** With no room at all (a ceiling of zero or less) nothing is examined. */
  lemma NoRoomExaminesNothing(p: Provider, glob: string -> GlobResult)
    requires p.filesLimit <= 0
    ensures Examined(p, glob) == 0
    ensures Take(AllFiles(p.sources, glob), p.filesLimit) == []
  {
    assert p.sources[..0] == [];
  }
}
