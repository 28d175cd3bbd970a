/**
 * The filesystem resource store: a resource name such as `Shaders.shared.h`
 * is split at every '.', '\' and '/', and the segments are joined back,
 * below the store's root, with either the directory separator or a '.'
 * between each two of them, directories first. The first joined path that
 * names an existing file is the resource.
 *
 * The file system is the set of existing file paths; the directory
 * separator of the platform is a parameter; the stream opened on the path
 * is the path itself.
 */
module FilesystemStores {
  import opened Wrappers

  /** The characters a resource name is split at. */
  predicate IsPathSeparator(c: char)
  {
    c == '.' || c == '\\' || c == '/'
  }

  /** No character of `s` is a separator. */
  predicate NoSeparator(s: string)
  {
    forall j :: 0 <= j < |s| ==> !IsPathSeparator(s[j])
  }

  /** String.Split over the separators: empty segments are kept, so there is always one more segment than separators. */
  function Split(s: string): (parts: seq<string>)
    ensures |parts| >= 1
    ensures forall k :: 0 <= k < |parts| ==> NoSeparator(parts[k])
  {
    if s == [] then [[]]
    else
      var rest := Split(s[1..]);
      if IsPathSeparator(s[0]) then [[]] + rest
      else [[s[0]] + rest[0]] + rest[1..]
  }

  /** The segments with `sep` between each two of them. */
  function Join(parts: seq<string>, sep: char): (s: string)
    requires |parts| >= 1
    decreases |parts|
  {
    if |parts| == 1 then parts[0] else parts[0] + [sep] + Join(parts[1..], sep)
  }

  /** `s` with every separator written as a '.'. */
  function Dotted(s: string): (d: string)
    ensures |d| == |s|
    ensures forall j :: 0 <= j < |s| ==> d[j] == if IsPathSeparator(s[j]) then '.' else s[j]
  {
    if s == [] then [] else [if IsPathSeparator(s[0]) then '.' else s[0]] + Dotted(s[1..])
  }

  /** Splitting and joining with dots gives the name with its separators written as dots. */
  lemma {:induction false} JoinSplit(s: string)
    ensures Join(Split(s), '.') == Dotted(s)
  {
    if s != [] {
      JoinSplit(s[1..]);
      var rest := Split(s[1..]);
      if IsPathSeparator(s[0]) {
        assert Split(s)[1..] == rest;
      } else {
        var parts := Split(s);
        if |rest| == 1 {
          assert Join(parts, '.') == [s[0]] + rest[0];
        } else {
          assert parts[1..] == rest[1..];
          assert Join(rest, '.') == rest[0] + ['.'] + Join(rest[1..], '.');
        }
      }
    }
  }

  /** Joining separator-free segments and splitting gives the segments back. */
  lemma {:induction false} SplitJoin(parts: seq<string>, sep: char)
    requires |parts| >= 1 && IsPathSeparator(sep)
    requires forall k :: 0 <= k < |parts| ==> NoSeparator(parts[k])
    ensures Split(Join(parts, sep)) == parts
    decreases |parts|, |parts[0]|, 1
  {
    if parts[0] != [] {
      SplitJoinFirstChar(parts, sep);
    } else if |parts| > 1 {
      SplitJoinEmptyFirst(parts, sep);
    }
  }

  /** The first character of the first segment goes in front of what the rest splits into. */
  lemma {:induction false} SplitJoinFirstChar(parts: seq<string>, sep: char)
    requires |parts| >= 1 && IsPathSeparator(sep) && parts[0] != []
    requires forall k :: 0 <= k < |parts| ==> NoSeparator(parts[k])
    ensures Split(Join(parts, sep)) == parts
    decreases |parts|, |parts[0]|, 0
  {
    var tail := [parts[0][1..]] + parts[1..];
    assert NoSeparator(tail[0]);
    SplitJoin(tail, sep);
    assert tail[1..] == parts[1..];
    assert Join(parts, sep) == [parts[0][0]] + Join(tail, sep);
    assert [parts[0][0]] + tail[0] == parts[0];
    assert [[parts[0][0]] + tail[0]] + tail[1..] == parts;
  }

  /** An empty first segment leaves a separator in front of the rest. */
  lemma {:induction false} SplitJoinEmptyFirst(parts: seq<string>, sep: char)
    requires |parts| > 1 && IsPathSeparator(sep) && parts[0] == []
    requires forall k :: 0 <= k < |parts| ==> NoSeparator(parts[k])
    ensures Split(Join(parts, sep)) == parts
    decreases |parts|, |parts[0]|, 0
  {
    SplitJoin(parts[1..], sep);
    assert Join(parts, sep) == [sep] + Join(parts[1..], sep);
  }

  /** findActualPath: the first existing path, trying a directory before a dotted name at every separator. */
  function FindActualPath(files: set<string>, dirSep: char, current: string, segments: seq<string>): (r: Option<string>)
    requires |segments| >= 1
    ensures r.Some? ==> r.value in files
    decreases |segments|
  {
    if |segments| == 1 then
      var final := current + segments[0];
      if final in files then Some(final) else None
    else
      match FindActualPath(files, dirSep, current + segments[0] + [dirSep], segments[1..])
      case Some(path) => Some(path)
      case None => FindActualPath(files, dirSep, current + segments[0] + ['.'], segments[1..])
  }

  /** Every path the search may try, in the order it tries them. */
  function Candidates(dirSep: char, current: string, segments: seq<string>): (cs: seq<string>)
    requires |segments| >= 1
    ensures |cs| >= 1
    decreases |segments|
  {
    if |segments| == 1 then [current + segments[0]]
    else
      Candidates(dirSep, current + segments[0] + [dirSep], segments[1..])
      + Candidates(dirSep, current + segments[0] + ['.'], segments[1..])
  }

  /** The first of `paths` that exists. */
  function FirstExisting(paths: seq<string>, files: set<string>): (r: Option<string>)
    ensures r.None? <==> forall k :: 0 <= k < |paths| ==> paths[k] !in files
    ensures r.Some? ==> exists k :: 0 <= k < |paths| && paths[k] == r.value && r.value in files
  {
    if paths == [] then None
    else if paths[0] in files then Some(paths[0])
    else
      var r := FirstExisting(paths[1..], files);
      assert forall k :: 1 <= k < |paths| ==> paths[k] == paths[1..][k - 1];
      r
  }

  lemma {:induction false} FirstExistingAppend(a: seq<string>, b: seq<string>, files: set<string>)
    ensures FirstExisting(a + b, files) == match FirstExisting(a, files) case Some(p) => Some(p) case None => FirstExisting(b, files)
  {
    if a != [] {
      FirstExistingAppend(a[1..], b, files);
      assert (a + b)[1..] == a[1..] + b;
    } else {
      assert a + b == b;
    }
  }

  /** The search returns the first candidate that exists, and nothing when none does. */
  lemma {:induction false} FindActualPathIsFirstCandidate(files: set<string>, dirSep: char, current: string, segments: seq<string>)
    requires |segments| >= 1
    ensures FindActualPath(files, dirSep, current, segments) == FirstExisting(Candidates(dirSep, current, segments), files)
    decreases |segments|
  {
    if |segments| > 1 {
      var dir := current + segments[0] + [dirSep];
      var dot := current + segments[0] + ['.'];
      FindActualPathIsFirstCandidate(files, dirSep, dir, segments[1..]);
      FindActualPathIsFirstCandidate(files, dirSep, dot, segments[1..]);
      FirstExistingAppend(Candidates(dirSep, dir, segments[1..]), Candidates(dirSep, dot, segments[1..]), files);
    }
  }

  /** The segments joined with dots, and joined with directory separators, are both among the candidates. */
  lemma {:induction false} JoinedAreCandidates(dirSep: char, current: string, segments: seq<string>)
    requires |segments| >= 1
    ensures current + Join(segments, '.') in Candidates(dirSep, current, segments)
    ensures current + Join(segments, dirSep) in Candidates(dirSep, current, segments)
    decreases |segments|
  {
    if |segments| > 1 {
      var dir := current + segments[0] + [dirSep];
      var dot := current + segments[0] + ['.'];
      JoinedAreCandidates(dirSep, dir, segments[1..]);
      JoinedAreCandidates(dirSep, dot, segments[1..]);
      assert current + Join(segments, '.') == dot + Join(segments[1..], '.');
      assert current + Join(segments, dirSep) == dir + Join(segments[1..], dirSep);
    }
  }

  /** Get: the path of the resource below `root`, or null when no candidate exists. */
  function Get(files: set<string>, dirSep: char, root: string, filename: string): (r: Option<string>)
    ensures r.Some? ==> r.value in files
  {
    FindActualPath(files, dirSep, root + [dirSep], Split(filename))
  }

  /**
   * Get finds nothing exactly when no candidate path exists, and a resource
   * stored under its name with every separator written as a dot is always
   * found (possibly as another candidate tried before it).
   */
  lemma GetFindsExisting(files: set<string>, dirSep: char, root: string, filename: string)
    ensures Get(files, dirSep, root, filename).None? <==>
      forall p :: p in Candidates(dirSep, root + [dirSep], Split(filename)) ==> p !in files
    ensures root + [dirSep] + Dotted(filename) in files ==> Get(files, dirSep, root, filename).Some?
  {
    var segments := Split(filename);
    FindActualPathIsFirstCandidate(files, dirSep, root + [dirSep], segments);
    JoinedAreCandidates(dirSep, root + [dirSep], segments);
    JoinSplit(filename);
  }
}
