/** Declared artifact locations: `src/artifact-location.ts` and the overlap tests of `src/artifact-declarations.ts`. */
module ArtifactPaths {
  import opened PathText

  datatype Kind = File | Directory
  datatype Place = Project | Run

  predicate AreNames(parts: seq<string>) {
    forall i | 0 <= i < |parts| :: parts[i] != "" && parts[i] != "." && parts[i] != ".."
  }

  /** `ArtifactPathSchema`: a literal, confined, relative path. */
  predicate IsLiteralPath(path: string) {
    && '\\' !in path && '\0' !in path
    && AreNames(Segments(path))
  }

  /** The locations an artifact owns: a file owns one, a directory everything at or below it. */
  predicate Owns(kind: Kind, path: string, location: seq<string>) {
    match kind
    case File => location == Segments(path)
    case Directory => Segments(path) <= location
  }

  /** The test that decides whether two outputs share a location. */
  predicate Overlaps(kind: Kind, path: string, otherKind: Kind, otherPath: string) {
    || otherPath == path
    || (otherKind == Directory && otherPath + "/" <= path)
    || (kind == Directory && path + "/" <= otherPath)
  }

  /** The test that binds a read to the output it names. */
  predicate Covers(outputKind: Kind, outputPath: string, readKind: Kind, readPath: string) {
    if outputPath == readPath then outputKind == readKind
    else outputKind == Directory && outputPath + "/" <= readPath
  }

  lemma {:induction false} OverlapIsIntersection(kind: Kind, path: string, otherKind: Kind, otherPath: string)
    ensures Overlaps(kind, path, otherKind, otherPath) <==>
            exists location :: Owns(kind, path, location) && Owns(otherKind, otherPath, location)
  {
    PrefixTest(path, otherPath);
    PrefixTest(otherPath, path);
    if Overlaps(kind, path, otherKind, otherPath) {
      var deeper := if otherPath == path || otherPath + "/" <= path then Segments(path) else Segments(otherPath);
      assert Owns(kind, path, deeper) && Owns(otherKind, otherPath, deeper);
    }
    if location :| Owns(kind, path, location) && Owns(otherKind, otherPath, location) {
      if Segments(path) == Segments(otherPath) { SegmentsInjective(path, otherPath); }
    }
  }

  lemma {:induction false} CoveredReadsAreOwned(outputKind: Kind, outputPath: string, readKind: Kind, readPath: string,
                                                location: seq<string>)
    requires Covers(outputKind, outputPath, readKind, readPath) && Owns(readKind, readPath, location)
    ensures Owns(outputKind, outputPath, location)
  {
    PrefixTest(outputPath, readPath);
  }

  /** `artifactRootContains` on resolved segments: a relative path that does not start with `..`. */
  predicate RootContains(root: seq<string>, path: seq<string>) {
    root <= path
  }

  /** A literal path, resolved below a root, stays below it. */
  lemma LiteralPathsAreConfined(root: seq<string>, path: string)
    requires IsLiteralPath(path)
    ensures RootContains(root, Resolve(root, Segments(path)))
    ensures Resolve(root, Segments(path)) == root + Segments(path)
  {
    ResolveLiteral(root, Segments(path));
  }

  /** `path.resolve` of segments against an absolute root. */
  function Resolve(base: seq<string>, parts: seq<string>): seq<string>
    decreases parts
  {
    if parts == [] then base
    else if parts[0] == "" || parts[0] == "." then Resolve(base, parts[1..])
    else if parts[0] == ".." then Resolve(if base == [] then [] else base[..|base| - 1], parts[1..])
    else Resolve(base + [parts[0]], parts[1..])
  }

  lemma {:induction false} ResolveLiteral(base: seq<string>, parts: seq<string>)
    requires AreNames(parts)
    ensures Resolve(base, parts) == base + parts
    decreases parts
  {
    if parts != [] {
      ResolveLiteral(base + [parts[0]], parts[1..]);
      assert base + [parts[0]] + parts[1..] == base + parts;
    }
  }
}
