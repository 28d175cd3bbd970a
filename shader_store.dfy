/**
 * The shader store: shader parts are looked up by name in the resource
 * store, under the store's prefix; a line `#include <name>` in a shader
 * source is replaced by the expansion of the named resource (its quotes
 * trimmed, '/' read as '.'), and every other line is kept with a newline.
 * Compiled parts are cached per shader type by name, and linked programs
 * per pair of part handles.
 *
 * The resources are a map from resource name to the lines a reader gives
 * back. The renderer's CreateShaderPart and CreateShader are logged: the
 * handle of a compiled part is its position in `compiledParts` plus one (GL
 * names are not zero), and a program is its position in `createdShaders`.
 */
module ShaderStores {
  import opened Wrappers

  datatype ShaderType = VertexShader | FragmentShader | OtherShader

  const IncludePrefix: string := "#include "
  const NewLine: string := "\n"

  /** line.StartsWith("#include "). */
  predicate IsInclude(line: string)
  {
    |IncludePrefix| <= |line| && line[..|IncludePrefix|] == IncludePrefix
  }

  predicate IsQuote(c: char)
  {
    c == '"' || c == '\''
  }

  /** Trim('"', '\'') on the left. */
  function TrimStart(s: string): string
  {
    if s != [] && IsQuote(s[0]) then TrimStart(s[1..]) else s
  }

  /** TrimStart keeps the longest suffix that does not start with a quote. */
  lemma {:induction false} TrimStartTrims(s: string)
    ensures |TrimStart(s)| <= |s| && TrimStart(s) == s[|s| - |TrimStart(s)|..]
    ensures TrimStart(s) == [] || !IsQuote(TrimStart(s)[0])
    ensures forall k :: 0 <= k < |s| - |TrimStart(s)| ==> IsQuote(s[k])
  {
    if s != [] && IsQuote(s[0]) {
      var t := TrimStart(s[1..]);
      assert TrimStart(s) == t;
      TrimStartTrims(s[1..]);
      assert s[1..][|s| - 1 - |t|..] == s[|s| - |t|..];
      forall k | 0 <= k < |s| - |t|
        ensures IsQuote(s[k])
      {
        if k > 0 {
          assert s[k] == s[1..][k - 1];
        }
      }
    } else {
      assert s[0..] == s;
    }
  }

  /** Trim('"', '\'') on the right. */
  function TrimEnd(s: string): string
  {
    if s != [] && IsQuote(s[|s| - 1]) then TrimEnd(s[..|s| - 1]) else s
  }

  /** TrimEnd keeps the longest prefix that does not end with a quote. */
  lemma {:induction false} TrimEndTrims(s: string)
    ensures var t := TrimEnd(s);
      && |t| <= |s| && t == s[..|t|]
      && (t == [] || !IsQuote(t[|t| - 1]))
      && forall k :: |t| <= k < |s| ==> IsQuote(s[k])
  {
    if s != [] && IsQuote(s[|s| - 1]) {
      var t := TrimEnd(s[..|s| - 1]);
      TrimEndTrims(s[..|s| - 1]);
      assert s[..|s| - 1][..|t|] == s[..|t|];
      forall k | |t| <= k < |s|
        ensures IsQuote(s[k])
      {
        if k < |s| - 1 {
          assert s[k] == s[..|s| - 1][k];
        }
      }
    }
  }

  /** Replace('/', '.'). */
  function ReplaceSlashes(s: string): string
  {
    if s == [] then [] else [if s[0] == '/' then '.' else s[0]] + ReplaceSlashes(s[1..])
  }

  /** ReplaceSlashes changes every '/' into '.' and keeps every other character. */
  lemma {:induction false} ReplaceSlashesReplaces(s: string)
    ensures |ReplaceSlashes(s)| == |s|
    ensures forall k :: 0 <= k < |s| ==> ReplaceSlashes(s)[k] == if s[k] == '/' then '.' else s[k]
  {
    if s != [] {
      ReplaceSlashesReplaces(s[1..]);
    }
  }

  /** The resource an include line names: the text after the prefix, its quotes trimmed, with '/' read as '.'. */
  function IncludeName(line: string): string
    requires IsInclude(line)
  {
    ReplaceSlashes(TrimEnd(TrimStart(line[|IncludePrefix|..])))
  }

  /** An include name holds no '/' and neither starts nor ends with a quote. */
  lemma IncludeNameShape(line: string)
    requires IsInclude(line)
    ensures var name := IncludeName(line);
      && (forall k :: 0 <= k < |name| ==> name[k] != '/')
      && (name == [] || (!IsQuote(name[0]) && !IsQuote(name[|name| - 1])))
  {
    var trimmed := TrimEnd(TrimStart(line[|IncludePrefix|..]));
    TrimStartTrims(line[|IncludePrefix|..]);
    TrimEndTrims(TrimStart(line[|IncludePrefix|..]));
    ReplaceSlashesReplaces(trimmed);
  }

  /** The resource name a shader path is read from. */
  function ResourceKey(prefix: string, path: string): string
  {
    prefix + "." + path
  }

  function RankOf(rank: map<string, nat>, key: string): nat
  {
    if key in rank then rank[key] else 0
  }

  /**
   * The includes form no cycle: every resource that a resource includes has
   * a lower rank. The loader has no cycle guard, so a cyclic include would
   * recurse until the stack overflows.
   */
  ghost predicate Ranked(resources: map<string, seq<string>>, prefix: string, rank: map<string, nat>)
  {
    forall key, k :: key in resources && 0 <= k < |resources[key]| && IsInclude(resources[key][k])
      && ResourceKey(prefix, IncludeName(resources[key][k])) in resources
      ==> RankOf(rank, ResourceKey(prefix, IncludeName(resources[key][k]))) < RankOf(rank, key)
  }

  ghost function Measure(resources: map<string, seq<string>>, prefix: string, rank: map<string, nat>, path: string): nat
  {
    var key := ResourceKey(prefix, path);
    if key in resources then RankOf(rank, key) + 1 else 0
  }

  /** `line` is a line of some resource. */
  ghost predicate FromResources(line: string, resources: map<string, seq<string>>)
  {
    exists key :: key in resources && line in resources[key]
  }

  /** No line is an include line, and every line comes from some resource. */
  ghost predicate Resolved(lines: seq<string>, resources: map<string, seq<string>>)
  {
    forall k :: 0 <= k < |lines| ==> !IsInclude(lines[k]) && FromResources(lines[k], resources)
  }

  lemma ResolvedAppend(a: seq<string>, b: seq<string>, resources: map<string, seq<string>>)
    requires Resolved(a, resources) && Resolved(b, resources)
    ensures Resolved(a + b, resources)
  {
    assert forall k :: 0 <= k < |a| + |b| ==> (a + b)[k] == if k < |a| then a[k] else b[k - |a|];
  }

  /**
   * The lines loadFile appends for `path`: none for a missing resource, and
   * otherwise each line of the resource, an include line replaced by the
   * lines of the resource it names.
   */
  ghost function Expanded(resources: map<string, seq<string>>, prefix: string, rank: map<string, nat>, path: string): (lines: seq<string>)
    requires Ranked(resources, prefix, rank)
    ensures ResourceKey(prefix, path) !in resources ==> lines == []
    decreases Measure(resources, prefix, rank, path), 1
  {
    var key := ResourceKey(prefix, path);
    if key !in resources then [] else ExpandFrom(resources, prefix, rank, key, 0)
  }

  /** The expansion of the lines of resource `key` from the `i`th on. */
  ghost function ExpandFrom(resources: map<string, seq<string>>, prefix: string, rank: map<string, nat>, key: string, i: nat): (lines: seq<string>)
    requires Ranked(resources, prefix, rank) && key in resources && i <= |resources[key]|
    ensures i == |resources[key]| ==> lines == []
    decreases RankOf(rank, key) + 1, 0, |resources[key]| - i
  {
    if i == |resources[key]| then []
    else
      var line := resources[key][i];
      var head := if IsInclude(line) then Expanded(resources, prefix, rank, IncludeName(line)) else [line];
      head + ExpandFrom(resources, prefix, rank, key, i + 1)
  }

  /** The expansion leaves no include line, and every line comes from some resource. */
  lemma {:induction false} ExpandedResolved(resources: map<string, seq<string>>, prefix: string, rank: map<string, nat>, path: string)
    requires Ranked(resources, prefix, rank)
    ensures Resolved(Expanded(resources, prefix, rank, path), resources)
    decreases Measure(resources, prefix, rank, path), 1
  {
    var key := ResourceKey(prefix, path);
    if key in resources {
      ExpandFromResolved(resources, prefix, rank, key, 0);
    }
  }

  lemma {:induction false} ExpandFromResolved(resources: map<string, seq<string>>, prefix: string, rank: map<string, nat>, key: string, i: nat)
    requires Ranked(resources, prefix, rank) && key in resources && i <= |resources[key]|
    ensures Resolved(ExpandFrom(resources, prefix, rank, key, i), resources)
    decreases RankOf(rank, key) + 1, 0, |resources[key]| - i
  {
    if i < |resources[key]| {
      var line := resources[key][i];
      var head := if IsInclude(line) then Expanded(resources, prefix, rank, IncludeName(line)) else [line];
      if IsInclude(line) {
        ExpandedResolved(resources, prefix, rank, IncludeName(line));
      } else {
        assert FromResources(line, resources);
      }
      ExpandFromResolved(resources, prefix, rank, key, i + 1);
      ResolvedAppend(head, ExpandFrom(resources, prefix, rank, key, i + 1), resources);
    }
  }

  /** The text AppendLine adds for one line. */
  function Line(line: string): string
  {
    line + NewLine
  }

  /** The text a StringBuilder holds after AppendLine of each line. */
  function Text(lines: seq<string>): (s: string)
  {
    if |lines| == 0 then [] else Line(lines[0]) + Text(lines[1..])
  }

  lemma {:induction false} TextAppend(a: seq<string>, b: seq<string>)
    ensures Text(a + b) == Text(a) + Text(b)
  {
    if |a| == 0 {
      assert a + b == b;
    } else {
      TextAppend(a[1..], b);
      assert (a + b)[0] == a[0] && (a + b)[1..] == a[1..] + b;
      var x, y, z := Line(a[0]), Text(a[1..]), Text(b);
      assert x + (y + z) == (x + y) + z;
    }
  }

  /** The lines one line of resource `key` expands to. */
  ghost function ExpandLine(resources: map<string, seq<string>>, prefix: string, rank: map<string, nat>, key: string, i: nat): seq<string>
    requires Ranked(resources, prefix, rank) && key in resources && i < |resources[key]|
  {
    var line := resources[key][i];
    if IsInclude(line) then Expanded(resources, prefix, rank, IncludeName(line)) else [line]
  }

  /**
   * Appending the text of the `i`th line to a builder that lacks the text
   * of the lines from the `i`th on leaves it lacking those from the next.
   */
  lemma ExpandStep(resources: map<string, seq<string>>, prefix: string, rank: map<string, nat>, key: string, i: nat, before: string, after: string)
    requires Ranked(resources, prefix, rank) && key in resources && i < |resources[key]|
    requires var line := resources[key][i];
      if IsInclude(line) then after == before + Text(Expanded(resources, prefix, rank, IncludeName(line)))
      else after == before + line + NewLine
    ensures after + Text(ExpandFrom(resources, prefix, rank, key, i + 1)) == before + Text(ExpandFrom(resources, prefix, rank, key, i))
  {
    var head := ExpandLine(resources, prefix, rank, key, i);
    var rest := ExpandFrom(resources, prefix, rank, key, i + 1);
    ExpandFromStep(resources, prefix, rank, key, i);
    TextAppend(head, rest);
    LineText(resources, prefix, rank, key, i, before, after);
    assert before + (Text(head) + Text(rest)) == (before + Text(head)) + Text(rest);
  }

  /** The expansion from the `i`th line is that line's expansion and then the rest. */
  lemma ExpandFromStep(resources: map<string, seq<string>>, prefix: string, rank: map<string, nat>, key: string, i: nat)
    requires Ranked(resources, prefix, rank) && key in resources && i < |resources[key]|
    ensures ExpandFrom(resources, prefix, rank, key, i) == ExpandLine(resources, prefix, rank, key, i) + ExpandFrom(resources, prefix, rank, key, i + 1)
  {
  }

  /** The builder after the `i`th line holds the text of that line's expansion. */
  lemma LineText(resources: map<string, seq<string>>, prefix: string, rank: map<string, nat>, key: string, i: nat, before: string, after: string)
    requires Ranked(resources, prefix, rank) && key in resources && i < |resources[key]|
    requires var line := resources[key][i];
      if IsInclude(line) then after == before + Text(Expanded(resources, prefix, rank, IncludeName(line)))
      else after == before + line + NewLine
    ensures after == before + Text(ExpandLine(resources, prefix, rank, key, i))
  {
    var line := resources[key][i];
    if !IsInclude(line) {
      assert Text([line]) == Line(line);
    }
  }

  /** The resource an include line names ranks below the resource holding the line. */
  lemma IncludeRanksLower(resources: map<string, seq<string>>, prefix: string, rank: map<string, nat>, key: string, i: nat)
    requires Ranked(resources, prefix, rank) && key in resources && i < |resources[key]|
    requires IsInclude(resources[key][i])
    ensures Measure(resources, prefix, rank, IncludeName(resources[key][i])) <= RankOf(rank, key)
  {
  }

  /** A resource without include lines expands to its own lines. */
  lemma NoIncludesExpandsToItself(resources: map<string, seq<string>>, prefix: string, rank: map<string, nat>, path: string)
    requires Ranked(resources, prefix, rank)
    requires ResourceKey(prefix, path) in resources
    requires forall k :: 0 <= k < |resources[ResourceKey(prefix, path)]| ==> !IsInclude(resources[ResourceKey(prefix, path)][k])
    ensures Expanded(resources, prefix, rank, path) == resources[ResourceKey(prefix, path)]
  {
    var key := ResourceKey(prefix, path);
    PlainLinesKept(resources, prefix, rank, key, 0);
  }

  lemma {:induction false} PlainLinesKept(resources: map<string, seq<string>>, prefix: string, rank: map<string, nat>, key: string, i: nat)
    requires Ranked(resources, prefix, rank) && key in resources && i <= |resources[key]|
    requires forall k :: i <= k < |resources[key]| ==> !IsInclude(resources[key][k])
    ensures ExpandFrom(resources, prefix, rank, key, i) == resources[key][i..]
    decreases |resources[key]| - i
  {
    if i < |resources[key]| {
      PlainLinesKept(resources, prefix, rank, key, i + 1);
      assert resources[key][i..] == [resources[key][i]] + resources[key][i + 1..];
    }
  }

  /** An include line is replaced by the whole expansion of the resource it names. */
  lemma IncludeIsReplaced(resources: map<string, seq<string>>, prefix: string, rank: map<string, nat>, key: string, i: nat)
    requires Ranked(resources, prefix, rank) && key in resources && i < |resources[key]|
    requires IsInclude(resources[key][i])
    ensures ExpandFrom(resources, prefix, rank, key, i)
         == Expanded(resources, prefix, rank, IncludeName(resources[key][i])) + ExpandFrom(resources, prefix, rank, key, i + 1)
  {
  }

  /** The source is empty exactly when the expansion has no line. */
  lemma TextEmpty(lines: seq<string>)
    ensures Text(lines) == [] <==> lines == []
  {
  }

  class ShaderStore {
    const prefix: string
    const resources: map<string, seq<string>>
    /** A ranking of the resources that shows their includes are acyclic. */
    ghost const rank: map<string, nat>
    /** The linked programs by (vertex part, fragment part). */
    var shaderCache: map<(nat, nat), nat>
    var vertexParts: map<string, nat>
    var fragParts: map<string, nat>
    /** The renderer's CreateShaderPart calls: the part with handle h is entry h - 1. */
    var compiledParts: seq<(ShaderType, string)>
    /** The renderer's CreateShader calls: program p is entry p. */
    var createdShaders: seq<(nat, nat)>

    /** The source loadFile gives for `name`. */
    ghost function Source(name: string): string
      requires Ranked(resources, prefix, rank)
    {
      Text(Expanded(resources, prefix, rank, name))
    }

    /** `handle` is a part of `type` compiled from the (non-empty) source of `name`. */
    ghost predicate CompiledAs(handle: nat, kind: ShaderType, name: string)
      reads this
      requires Ranked(resources, prefix, rank)
    {
      1 <= handle <= |compiledParts| && compiledParts[handle - 1] == (kind, Source(name)) && Source(name) != []
    }

    ghost predicate Valid()
      reads this
    {
      && Ranked(resources, prefix, rank)
      && (forall name :: name in vertexParts ==> CompiledAs(vertexParts[name], VertexShader, name))
      && (forall name :: name in fragParts ==> CompiledAs(fragParts[name], FragmentShader, name))
      && (forall parts :: parts in shaderCache ==> shaderCache[parts] < |createdShaders| && createdShaders[shaderCache[parts]] == parts)
    }

    /** The part cache for `type`. */
    function Cache(kind: ShaderType): map<string, nat>
      reads this
    {
      if kind == VertexShader then vertexParts else fragParts
    }

    constructor (prefix: string, resources: map<string, seq<string>>, ghost rank: map<string, nat>)
      requires Ranked(resources, prefix, rank)
      ensures Valid()
      ensures this.prefix == prefix && this.resources == resources && this.rank == rank
      ensures shaderCache == map[] && vertexParts == map[] && fragParts == map[]
      ensures compiledParts == [] && createdShaders == []
    {
      this.prefix := prefix;
      this.resources := resources;
      this.rank := rank;
      shaderCache, vertexParts, fragParts := map[], map[], map[];
      compiledParts, createdShaders := [], [];
    }

    /** loadFile(path, sb): appends the expansion of `path` to what the builder holds. */
    method LoadFileInto(path: string, sb: string) returns (result: string)
      requires Ranked(resources, prefix, rank)
      ensures result == sb + Text(Expanded(resources, prefix, rank, path))
      decreases Measure(resources, prefix, rank, path), 1
    {
      var key := ResourceKey(prefix, path);
      if key !in resources {
        return sb;
      }
      var lines := resources[key];
      ghost var target := sb + Text(Expanded(resources, prefix, rank, path));
      assert Expanded(resources, prefix, rank, path) == ExpandFrom(resources, prefix, rank, key, 0);
      result := sb;
      for i := 0 to |lines|
        invariant result + Text(ExpandFrom(resources, prefix, rank, key, i)) == target
      {
        ghost var before := result;
        result := LoadLine(key, i, result);
        ExpandStep(resources, prefix, rank, key, i, before, result);
      }
    }

    /**
     * The body of loadFile's loop for the `i`th line of resource `key`: an
     * include line appends the expansion of the resource it names, any
     * other line is appended with a newline.
     */
    method LoadLine(key: string, i: nat, sb: string) returns (result: string)
      requires Ranked(resources, prefix, rank) && key in resources && i < |resources[key]|
      ensures var line := resources[key][i];
        if IsInclude(line) then result == sb + Text(Expanded(resources, prefix, rank, IncludeName(line)))
        else result == sb + line + NewLine
      decreases RankOf(rank, key) + 1, 0
    {
      var line := resources[key][i];
      if IsInclude(line) {
        IncludeRanksLower(resources, prefix, rank, key, i);
        result := LoadFileInto(IncludeName(line), sb);
      } else {
        result := sb + line + NewLine;
      }
    }

    /** loadFile(path): the expanded source of `path`. */
    method LoadFile(path: string) returns (source: string)
      requires Ranked(resources, prefix, rank)
      ensures source == Source(path)
    {
      source := LoadFileInto(path, "");
    }

    /**
     * retrieveOrLoadPart: a cached part is returned as it is; otherwise the
     * source is loaded, and an empty one gives 0 and is not cached, while a
     * non-empty one is compiled and cached under `name`.
     */
    method RetrieveOrLoadPart(kind: ShaderType, name: string) returns (handle: nat)
      requires Valid() && kind != OtherShader
      modifies this
      ensures Valid()
      ensures handle == 0 <==> name !in old(Cache(kind)) && Source(name) == []
      ensures handle != 0 ==> CompiledAs(handle, kind, name)
      ensures name in old(Cache(kind)) || Source(name) == [] ==> handle == (if name in old(Cache(kind)) then old(Cache(kind))[name] else 0) && unchanged(this)
      ensures name !in old(Cache(kind)) && Source(name) != [] ==>
        && handle == |old(compiledParts)| + 1
        && compiledParts == old(compiledParts) + [(kind, Source(name))]
        && Cache(kind) == old(Cache(kind))[name := handle]
      ensures kind == VertexShader ==> fragParts == old(fragParts)
      ensures kind == FragmentShader ==> vertexParts == old(vertexParts)
      ensures shaderCache == old(shaderCache) && createdShaders == old(createdShaders)
    {
      var cache := Cache(kind);
      if name in cache {
        return cache[name];
      }
      var src := LoadFile(name);
      if src == [] {
        return 0;
      }
      compiledParts := compiledParts + [(kind, src)];
      handle := |compiledParts|;
      if kind == VertexShader {
        vertexParts := vertexParts[name := handle];
      } else {
        fragParts := fragParts[name := handle];
      }
    }

    /** extensionFor. */
    static function ExtensionFor(kind: ShaderType): (ext: string)
      ensures kind == VertexShader ==> ext == ".vert"
      ensures kind == FragmentShader ==> ext == ".frag"
      ensures kind == OtherShader ==> ext == ""
    {
      match kind
      case VertexShader => ".vert"
      case FragmentShader => ".frag"
      case OtherShader => ""
    }

    /**
     * getShaderPart: the part named `name`, else the part named with the
     * type's extension; 0 when both sources are empty or missing, and for a
     * type without a cache.
     */
    method GetShaderPart(kind: ShaderType, name: string) returns (result: nat)
      requires Valid()
      modifies this
      ensures Valid()
      ensures kind == OtherShader ==> result == 0 && unchanged(this)
      ensures kind != OtherShader ==>
        (result == 0 <==> Source(name) == [] && Source(name + ExtensionFor(kind)) == [])
      ensures result != 0 ==> CompiledAs(result, kind, name) || CompiledAs(result, kind, name + ExtensionFor(kind))
      ensures forall n :: n in old(vertexParts) ==> n in vertexParts && vertexParts[n] == old(vertexParts[n])
      ensures forall n :: n in old(fragParts) ==> n in fragParts && fragParts[n] == old(fragParts[n])
      ensures shaderCache == old(shaderCache) && createdShaders == old(createdShaders)
      ensures old(compiledParts) <= compiledParts
    {
      if kind == OtherShader {
        return 0;
      }
      result := RetrieveOrLoadPart(kind, name);
      if result == 0 {
        result := RetrieveOrLoadPart(kind, name + ExtensionFor(kind));
      }
    }

    /**
     * Get: the program linking the vertex part and the fragment part, both
     * looked up by `vertexPart` as the source does, so `fragmentPart` plays
     * no part; a pair of parts seen before gives the program made for it.
     */
    method Get(vertexPart: string, fragmentPart: string) returns (shader: nat)
      requires Valid()
      modifies this
      ensures Valid()
      ensures shader < |createdShaders| && createdShaders[shader] in shaderCache && shaderCache[createdShaders[shader]] == shader
      ensures var (vert, frag) := createdShaders[shader];
        && (vert == 0 <==> Source(vertexPart) == [] && Source(vertexPart + ".vert") == [])
        && (vert != 0 ==> CompiledAs(vert, VertexShader, vertexPart) || CompiledAs(vert, VertexShader, vertexPart + ".vert"))
        && (frag == 0 <==> Source(vertexPart) == [] && Source(vertexPart + ".frag") == [])
        && (frag != 0 ==> CompiledAs(frag, FragmentShader, vertexPart) || CompiledAs(frag, FragmentShader, vertexPart + ".frag"))
      ensures createdShaders[shader] in old(shaderCache) ==> shader == old(shaderCache)[createdShaders[shader]] && createdShaders == old(createdShaders)
      ensures createdShaders[shader] !in old(shaderCache) ==> createdShaders == old(createdShaders) + [createdShaders[shader]]
      ensures forall parts :: parts in old(shaderCache) ==> parts in shaderCache && shaderCache[parts] == old(shaderCache)[parts]
    {
      var vertHandle := GetShaderPart(VertexShader, vertexPart);
      ghost var compiledBefore := compiledParts;
      var fragHandle := GetShaderPart(FragmentShader, vertexPart);
      assert vertHandle != 0 ==> compiledParts[vertHandle - 1] == compiledBefore[vertHandle - 1];
      var parts := (vertHandle, fragHandle);
      if parts in shaderCache {
        return shaderCache[parts];
      }
      shader := |createdShaders|;
      createdShaders := createdShaders + [parts];
      shaderCache := shaderCache[parts := shader];
    }
  }
}
