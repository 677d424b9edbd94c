/** Scan targets and the cache keys computed from them (crates/security/src/target.rs,
    crates/proxy/src/scan.rs, crates/proxy/src/gateway.rs, crates/proxy/src/docker.rs). */
module Targets {
  import opened Text

  datatype PackageIdentity =
    | Osv(ecosystem: string, name: string)
    | Purl(purl: string)
    | GitCommit(commit: string)

  datatype ScanTarget =
    | Package(sourceFormat: string, identity: PackageIdentity, version: Option<string>)
    | Artifact(sourceFormat: string, uri: string, digest: Option<string>)
  {
    function CacheNamespace(): string {
      sourceFormat
    }

    function CacheIdentifier(): string {
      match this
      case Package(_, Osv(ecosystem, name), _) => ecosystem + "/" + name
      case Package(_, Purl(purl), _) => purl
      case Package(_, GitCommit(commit), _) => commit
      case Artifact(_, uri, digest) => if digest.Some? then digest.value else uri
    }

    function CacheVersion(): Option<string> {
      match this
      case Package(_, _, version) => version
      case Artifact(_, _, _) => None
    }

    /** The name that exception package selectors are compared with. */
    function PolicyPackageName(): string {
      match this
      case Package(_, Osv(_, name), _) => name
      case Package(_, Purl(purl), _) => purl
      case Package(_, GitCommit(commit), _) => commit
      case Artifact(_, uri, digest) => if digest.Some? then digest.value else uri
    }
  }

  datatype CacheKey = CacheKey(space: string, identifier: string, version: Option<string>)

  function FromOsv(ecosystem: string, name: string, version: string): ScanTarget {
    Package(ecosystem, Osv(ecosystem, name), Some(version))
  }

  /** The targets the path classifier builds for packages. */
  predicate IsOsvPackage(t: ScanTarget) {
    t.Package? && t.identity.Osv? && t.version.Some? && t.sourceFormat == t.identity.ecosystem
  }

  function KeyForTarget(t: ScanTarget): CacheKey {
    CacheKey(t.CacheNamespace(), t.CacheIdentifier(), t.CacheVersion())
  }

  function ArtifactKey(repository: string, t: ScanTarget, pathAndQuery: string): CacheKey
    requires t.Artifact?
  {
    CacheKey(t.CacheNamespace(), if t.digest.Some? then t.digest.value else repository + "\n" + pathAndQuery, None)
  }

  function DockerKey(repository: string, image: string, digest: string): CacheKey {
    CacheKey("docker", repository + "/" + image + "@" + digest, None)
  }

  function DockerDigestTarget(image: string, digest: string): ScanTarget {
    Artifact("docker", image + "@" + digest, Some(digest))
  }

  /** Keys of package coordinates are injective: the namespace pins the ecosystem, and with it the
      identifier pins the name. */
  lemma PackageKeyInjective(a: ScanTarget, b: ScanTarget)
    requires IsOsvPackage(a) && IsOsvPackage(b)
    requires KeyForTarget(a) == KeyForTarget(b)
    ensures a == b
  {
    var prefix := a.identity.ecosystem + "/";
    assert a.CacheIdentifier()[|prefix|..] == a.identity.name;
    assert b.CacheIdentifier()[|prefix|..] == b.identity.name;
  }

  /** The namespace is what makes it so: on the identifier alone two packages collide. */
  lemma IdentifierAloneCollides()
    ensures exists a, b :: IsOsvPackage(a) && IsOsvPackage(b) && a != b
                           && a.CacheIdentifier() == b.CacheIdentifier() && a.CacheVersion() == b.CacheVersion()
  {
    var a, b := FromOsv("x", "y/z", "1"), FromOsv("x/y", "z", "1");
    assert a.CacheIdentifier() == "x/y/z" == b.CacheIdentifier();
  }

  /** The part of `/repository/<name>/<rest>` that is classified: the rest, without the query. */
  function StrippedPath(pathAndQuery: string): Option<string> {
    var path := pathAndQuery[..Find(pathAndQuery, '?')];
    if !("/repository/" <= path) then None
    else
      var rest := path[12..];
      var slash := Find(rest, '/');
      if slash == 0 then None
      else if slash + 1 >= |rest| then Some("/")
      else Some(rest[slash..])
  }

  /** A download path is the repository prefix, a name, and the path that is classified. */
  lemma StrippedPathOf(name: string, rest: string, query: string)
    requires name != [] && '/' !in name && '?' !in name && '?' !in rest
    ensures StrippedPath("/repository/" + name + ['/'] + rest + ['?'] + query) == Some("/" + rest)
  {
    var prefix := "/repository/";
    var path := prefix + name + ['/'] + rest;
    assert '?' !in prefix;
    hide Find;
    FindAfter(path, '?', query);
    var whole, tail := path + ['?'] + query, name + ['/'] + rest;
    assert whole[..|path|] == path;
    assert prefix <= path && path[12..] == tail;
    FindAfter(name, '/', rest);
    assert tail[|name|..] == "/" + rest;
    assert rest == [] ==> "/" + rest == "/";
  }

  /** The target of an artifact download, and what a path and query cannot hold. */
  predicate IsPathArtifact(t: ScanTarget, format: string, pathAndQuery: string) {
    && '\n' !in pathAndQuery && StrippedPath(pathAndQuery).Some?
    && t == Artifact(format, StrippedPath(pathAndQuery).value, None)
  }

  lemma LastSeparator(a: string, b: string, a': string, b': string, c: char)
    requires a + [c] + b == a' + [c] + b' && c !in b && c !in b'
    ensures a == a' && b == b'
  {
    JoinsAgreeExactly(a, b, a', b', c);
    forall x
      ensures c in x + [c] + b && c in x + [c] + b'
    {
      assert (x + [c] + b)[|x|] == c && (x + [c] + b')[|x|] == c;
    }
  }

  /** Artifacts addressed by path share a key only when repository, path and target agree, whatever the
      repositories are called. */
  lemma ArtifactKeyInjective(r1: string, t1: ScanTarget, p1: string, r2: string, t2: ScanTarget, p2: string)
    requires IsPathArtifact(t1, t1.sourceFormat, p1) && IsPathArtifact(t2, t2.sourceFormat, p2)
    requires ArtifactKey(r1, t1, p1) == ArtifactKey(r2, t2, p2)
    ensures r1 == r2 && p1 == p2 && t1 == t2
  {
    LastSeparator(r1, p1, r2, p2, '\n');
  }

  /** Keys of image digests agree exactly when image and digest do, or when one image name continues
      the other's with `@` and a piece with which the other's digest begins. */
  lemma DockerKeyExactly(repository: string, i1: string, d1: string, i2: string, d2: string)
    ensures DockerKey(repository, i1, d1) == DockerKey(repository, i2, d2) <==>
            (i1 == i2 && d1 == d2) || Spills(i1, d1, i2, d2, '@') || Spills(i2, d2, i1, d1, '@')
  {
    var prefix := repository + "/";
    var s1, s2 := i1 + ['@'] + d1, i2 + ['@'] + d2;
    assert DockerKey(repository, i1, d1).identifier == prefix + s1;
    assert DockerKey(repository, i2, d2).identifier == prefix + s2;
    assert (prefix + s1)[|prefix|..] == s1 && (prefix + s2)[|prefix|..] == s2;
    JoinsAgreeExactly(i1, d1, i2, d2, '@');
  }

  lemma SpillHasSeparator(shorter: string, rest: string, longer: string, end: string, c: char)
    requires Spills(shorter, rest, longer, end, c)
    ensures c in longer
  {
    var x :| longer == shorter + [c] + x && rest == x + [c] + end;
    assert longer[|shorter|] == c;
  }

  /** So image names without `@` are told apart. */
  lemma DockerKeyInjective(repository: string, i1: string, d1: string, i2: string, d2: string)
    requires '@' !in i1 && '@' !in i2 && DockerKey(repository, i1, d1) == DockerKey(repository, i2, d2)
    ensures i1 == i2 && d1 == d2
  {
    DockerKeyExactly(repository, i1, d1, i2, d2);
    if Spills(i1, d1, i2, d2, '@') {
      SpillHasSeparator(i1, d1, i2, d2, '@');
    }
    if Spills(i2, d2, i1, d1, '@') {
      SpillHasSeparator(i2, d2, i1, d1, '@');
    }
  }

  /** And image names with it are not: two images, two digests, one key. */
  lemma DockerKeysCollide(repository: string)
    ensures DockerKey(repository, "a", "b:c@d:e") == DockerKey(repository, "a@b:c", "d:e")
    ensures DockerDigestTarget("a", "b:c@d:e") != DockerDigestTarget("a@b:c", "d:e")
  {
    assert Spills("a", "b:c@d:e", "a@b:c", "d:e", '@') by {
      assert "a@b:c" == "a" + ['@'] + "b:c" && "b:c@d:e" == "b:c" + ['@'] + "d:e";
    }
    DockerKeyExactly(repository, "a", "b:c@d:e", "a@b:c", "d:e");
  }
}
