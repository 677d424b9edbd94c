/** Which download a path asks for (crates/proxy/src/classifier/mod.rs and formats.rs). */
module Classifier {
  import opened Text
  import opened Targets

  datatype Kind = Maven | Npm | Pypi | Cargo | Go | Helm | NotScanned

  datatype ClassificationContext = ClassificationContext(format: string, ecosystem: Option<string>)

  predicate IsAsciiAlphanumeric(c: char) {
    'a' <= c <= 'z' || 'A' <= c <= 'Z' || '0' <= c <= '9'
  }

  function NormalizeFormat(format: string): string {
    if format == [] then []
    else if IsAsciiAlphanumeric(format[0]) then [LowerChar(format[0])] + NormalizeFormat(format[1..])
    else NormalizeFormat(format[1..])
  }

  function KindOf(format: string): Kind {
    var f := NormalizeFormat(format);
    if f == "maven" || f == "maven2" then Maven
    else if f == "npm" then Npm
    else if f == "pypi" || f == "python" then Pypi
    else if f == "cargo" || f == "rust" || f == "rustcargo" then Cargo
    else if f == "go" || f == "golang" then Go
    else if f == "helm" then Helm
    else NotScanned
  }

  function DefaultOsvEcosystem(format: string): Option<string> {
    match KindOf(format)
    case Maven => Some("Maven")
    case Npm => Some("npm")
    case Pypi => Some("PyPI")
    case Cargo => Some("crates.io")
    case Go => Some("Go")
    case Helm => None
    case NotScanned => if NormalizeFormat(format) == "node" then Some("npm") else None
  }

  function EcosystemOf(c: ClassificationContext, fallback: string): string {
    if c.ecosystem.Some? then c.ecosystem.value
    else if DefaultOsvEcosystem(c.format).Some? then DefaultOsvEcosystem(c.format).value
    else fallback
  }

  function PackageTarget(c: ClassificationContext, fallback: string, name: string, version: string): ScanTarget {
    FromOsv(EcosystemOf(c, fallback), name, version)
  }

  // ---- Path segments ----

  function SplitOn(s: string, c: char): (parts: seq<string>)
    ensures |parts| > 0
    decreases |s|
  {
    var i := Find(s, c);
    if i == |s| then [s] else [s[..i]] + SplitOn(s[i + 1..], c)
  }

  function NonEmptyParts(parts: seq<string>): seq<string> {
    if parts == [] then []
    else (if parts[0] == [] then [] else [parts[0]]) + NonEmptyParts(parts[1..])
  }

  function TrimSlashes(path: string): string {
    if path != [] && path[0] == '/' then TrimSlashes(path[1..]) else path
  }

  function RawSegments(path: string): seq<string> {
    NonEmptyParts(SplitOn(path, '/'))
  }

  /** `decode` is percent-decoding of one segment. */
  function DecodedSegments(path: string, decode: string -> string): seq<string> {
    var raw := RawSegments(TrimSlashes(path));
    seq(|raw|, i requires 0 <= i < |raw| => decode(raw[i]))
  }

  // ---- String pieces ----

  predicate EndsWith(s: string, suffix: string) {
    |suffix| <= |s| && s[|s| - |suffix|..] == suffix
  }

  function StripSuffix(s: string, suffix: string): Option<string> {
    if EndsWith(s, suffix) then Some(s[..|s| - |suffix|]) else None
  }

  function StripPrefix(s: string, prefix: string): Option<string> {
    if prefix <= s then Some(s[|prefix|..]) else None
  }

  function OrElse(a: Option<string>, b: Option<string>): Option<string> {
    if a.Some? then a else b
  }

  function Join(parts: seq<string>, separator: char): string {
    if parts == [] then []
    else if |parts| == 1 then parts[0]
    else parts[0] + [separator] + Join(parts[1..], separator)
  }

  /** Position of the last `c`. */
  function FindLast(s: string, c: char): Option<nat> {
    if s == [] then None
    else if s[|s| - 1] == c then Some(|s| - 1)
    else FindLast(s[..|s| - 1], c)
  }

  lemma {:induction false} FindLastShape(s: string, c: char)
    ensures FindLast(s, c).Some? ==> FindLast(s, c).value < |s| && s[FindLast(s, c).value] == c
    ensures FindLast(s, c).Some? <==> c in s
    ensures FindLast(s, c).Some? ==> c !in s[FindLast(s, c).value + 1..]
  {
    if s != [] && s[|s| - 1] != c {
      var t := s[..|s| - 1];
      FindLastShape(t, c);
      assert s == t + [s[|s| - 1]];
      if FindLast(t, c).Some? {
        var i := FindLast(t, c).value;
        assert s[i + 1..] == t[i + 1..] + [s[|s| - 1]];
      }
    }
  }

  /** Text after the last dash, if there is a dash. */
  function AfterLastDash(s: string): Option<string> {
    FindLastShape(s, '-');
    if FindLast(s, '-').Some? then Some(s[FindLast(s, '-').value + 1..]) else None
  }

  // ---- Formats ----

  predicate IsSidecar(file: string) {
    || EndsWith(file, ".asc") || EndsWith(file, ".md5") || EndsWith(file, ".sha1")
    || EndsWith(file, ".sha256") || EndsWith(file, ".sha512") || EndsWith(file, ".sig")
  }

  function ClassifyMaven(c: ClassificationContext, segs: seq<string>): Option<ScanTarget> {
    var n := |segs|;
    if n < 4 then None
    else if IsSidecar(segs[n - 1]) || segs[n - 1] == "maven-metadata.xml" then None
    else
      var group := Join(segs[..n - 3], '.');
      if group == [] || !Contains(segs[n - 1], segs[n - 2]) then None
      else Some(PackageTarget(c, "Maven", group + ":" + segs[n - 3], segs[n - 2]))
  }

  function ClassifyNpm(c: ClassificationContext, segs: seq<string>): Option<ScanTarget> {
    var n := |segs|;
    if n == 0 then None
    else
      var stem := StripSuffix(segs[n - 1], ".tgz");
      if stem.None? then None
      else if n >= 4 && segs[0] != [] && segs[0][0] == '@' && segs[2] == "-" then
        NpmTarget(c, segs[0] + "/" + segs[1], segs[1], stem.value)
      else if n >= 3 && segs[1] == "-" then NpmTarget(c, segs[0], segs[0], stem.value)
      else None
  }

  function NpmTarget(c: ClassificationContext, package: string, tarball: string, stem: string): Option<ScanTarget> {
    var version := OrElse(StripPrefix(stem, tarball + "-"), AfterLastDash(stem));
    if version.None? then None else Some(PackageTarget(c, "npm", package, version.value))
  }

  function NormalizePypiName(name: string): string {
    Lower(seq(|name|, i requires 0 <= i < |name| => if name[i] == '_' || name[i] == '.' then '-' else name[i]))
  }

  function ClassifyPypi(c: ClassificationContext, segs: seq<string>): Option<ScanTarget> {
    if segs == [] then None
    else
      var file := segs[|segs| - 1];
      if StripSuffix(file, ".whl").Some? then
        var parts := SplitOn(StripSuffix(file, ".whl").value, '-');
        if |parts| < 2 then None else Some(PackageTarget(c, "PyPI", NormalizePypiName(parts[0]), parts[1]))
      else
        var stem := OrElse(StripSuffix(file, ".tar.gz"), OrElse(StripSuffix(file, ".zip"), StripSuffix(file, ".tgz")));
        if stem.None? then None else SdistTarget(c, stem.value)
  }

  function SdistTarget(c: ClassificationContext, stem: string): Option<ScanTarget> {
    FindLastShape(stem, '-');
    var dash := FindLast(stem, '-');
    if dash.None? then None
    else Some(PackageTarget(c, "PyPI", NormalizePypiName(stem[..dash.value]), stem[dash.value + 1..]))
  }

  const CRATES: seq<string> := ["api", "v1", "crates"]

  /** First position at which the three segments of the crates API stand. */
  function CratesIndex(segs: seq<string>): Option<nat> {
    if |segs| < 3 then None
    else if segs[..3] == CRATES then Some(0)
    else var rest := CratesIndex(segs[1..]); if rest.None? then None else Some(rest.value + 1)
  }

  function ClassifyCargo(c: ClassificationContext, segs: seq<string>): Option<ScanTarget> {
    var at := CratesIndex(segs);
    if at.None? || at.value + 5 >= |segs| || segs[at.value + 5] != "download" then None
    else Some(PackageTarget(c, "crates.io", segs[at.value + 3], segs[at.value + 4]))
  }

  function MarkerIndex(segs: seq<string>): (i: nat)
    ensures i <= |segs|
  {
    if segs == [] then 0 else if segs[0] == "@v" then 0 else MarkerIndex(segs[1..]) + 1
  }

  function ClassifyGo(c: ClassificationContext, segs: seq<string>): Option<ScanTarget> {
    var marker := MarkerIndex(segs);
    if marker + 1 >= |segs| then None
    else
      var file := segs[marker + 1];
      var version := OrElse(StripSuffix(file, ".zip"), OrElse(StripSuffix(file, ".mod"), StripSuffix(file, ".info")));
      var path := Join(segs[..marker], '/');
      if version.None? || path == [] then None else Some(PackageTarget(c, "Go", path, version.value))
  }

  function ClassifyHelm(c: ClassificationContext, path: string, segs: seq<string>): Option<ScanTarget> {
    if segs == [] then None
    else if !EndsWith(segs[|segs| - 1], ".tgz") && !EndsWith(segs[|segs| - 1], ".tar.gz") then None
    else Some(Artifact(c.format, path, None))
  }

  /** `None` is proxied without a scan. `fetches` says whether the method is GET or HEAD. */
  function ClassifyPath(c: ClassificationContext, fetches: bool, path: string,
                        decode: string -> string): Option<ScanTarget> {
    if !fetches then None
    else
      var segs := DecodedSegments(path, decode);
      match KindOf(c.format)
      case Maven => ClassifyMaven(c, segs)
      case Npm => ClassifyNpm(c, segs)
      case Pypi => ClassifyPypi(c, segs)
      case Cargo => ClassifyCargo(c, segs)
      case Go => ClassifyGo(c, segs)
      case Helm => ClassifyHelm(c, path, segs)
      case NotScanned => None
  }
}

/** The classifier inverts the canonical download paths of each format. */
module ClassifierLaws {
  import opened Text
  import opened Targets
  import opened Classifier

  /** A segment that survives splitting and percent-decoding unchanged. */
  predicate Clean(s: string) {
    s != [] && '/' !in s && '%' !in s
  }

  ghost predicate AllClean(segs: seq<string>) {
    forall i :: 0 <= i < |segs| ==> Clean(segs[i])
  }

  /** All that is asked of percent-decoding. */
  ghost predicate Transparent(decode: string -> string) {
    forall s :: '%' !in s ==> decode(s) == s
  }

  /** The canonical path: a slash before every segment. */
  function PathOf(segs: seq<string>): string {
    if segs == [] then [] else PathOf(segs[..|segs| - 1]) + ['/'] + segs[|segs| - 1]
  }

  lemma {:induction false} NonEmptyPartsConcat(a: seq<string>, b: seq<string>)
    ensures NonEmptyParts(a + b) == NonEmptyParts(a) + NonEmptyParts(b)
  {
    if a == [] {
      assert a + b == b;
    } else {
      assert (a + b)[1..] == a[1..] + b;
      NonEmptyPartsConcat(a[1..], b);
    }
  }

  lemma {:induction false} SplitAtSlash(p: string, q: string)
    ensures SplitOn(p + ['/'] + q, '/') == SplitOn(p, '/') + SplitOn(q, '/')
    decreases |p|
  {
    hide Find;
    var s := p + ['/'] + q;
    var i := Find(p, '/');
    if i == |p| {
      assert '/' !in p;
      FindAfter(p, '/', q);
      assert s[..i] == p && s[i + 1..] == q;
    } else {
      hide SplitOn;
      FindUnique(s, '/', i);
      SplitStep(s);
      SplitStep(p);
      assert s[..i] == p[..i];
      assert s[i + 1..] == p[i + 1..] + ['/'] + q;
      SplitAtSlash(p[i + 1..], q);
    }
  }

  lemma SplitStep(s: string)
    requires Find(s, '/') < |s|
    ensures SplitOn(s, '/') == [s[..Find(s, '/')]] + SplitOn(s[Find(s, '/') + 1..], '/')
  {
    hide Find;
  }

  /** Segments of a path are the segments left and right of any slash. */
  lemma SegmentsAtSlash(p: string, q: string)
    ensures RawSegments(p + ['/'] + q) == RawSegments(p) + RawSegments(q)
  {
    SplitAtSlash(p, q);
    NonEmptyPartsConcat(SplitOn(p, '/'), SplitOn(q, '/'));
  }

  lemma EmptySegments()
    ensures RawSegments([]) == []
  {
    assert SplitOn([], '/') == [[]];
    assert NonEmptyParts([[]]) == NonEmptyParts([[]][1..]);
  }

  lemma {:induction false} TrimmingSlashesIsHarmless(path: string)
    ensures RawSegments(TrimSlashes(path)) == RawSegments(path)
  {
    if path != [] && path[0] == '/' {
      TrimmingSlashesIsHarmless(path[1..]);
      SegmentsAtSlash([], path[1..]);
      EmptySegments();
      assert path == [] + ['/'] + path[1..];
    }
  }

  lemma {:induction false} SegmentsOfPath(segs: seq<string>)
    requires AllClean(segs)
    ensures RawSegments(PathOf(segs)) == segs
  {
    if segs == [] {
      EmptySegments();
    } else {
      var init, last := segs[..|segs| - 1], segs[|segs| - 1];
      SegmentsOfPath(init);
      SegmentsAtSlash(PathOf(init), last);
      FindUnique(last, '/', |last|);
      assert SplitOn(last, '/') == [last];
      assert NonEmptyParts([last]) == [last] + NonEmptyParts([last][1..]);
      assert segs == init + [last];
    }
  }

  lemma DecodedSegmentsOfPath(segs: seq<string>, decode: string -> string)
    requires AllClean(segs) && Transparent(decode)
    ensures DecodedSegments(PathOf(segs), decode) == segs
  {
    TrimmingSlashesIsHarmless(PathOf(segs));
    SegmentsOfPath(segs);
  }

  /** What a package path denotes depends on its segments only. */
  lemma SegmentsDecide(c: ClassificationContext, p: string, q: string, decode: string -> string)
    requires !HelmFormat(c.format) && RawSegments(p) == RawSegments(q)
    ensures ClassifyPath(c, true, p, decode) == ClassifyPath(c, true, q, decode)
  {
    FormatsByName(c.format);
    TrimmingSlashesIsHarmless(p);
    TrimmingSlashesIsHarmless(q);
    assert DecodedSegments(p, decode) == DecodedSegments(q, decode);
  }

  /** Extra slashes, inside or at either end, never change what a package path denotes. */
  lemma ExtraSlashesHarmless(c: ClassificationContext, p: string, q: string, decode: string -> string)
    requires !HelmFormat(c.format)
    ensures ClassifyPath(c, true, p + ['/'] + (['/'] + q), decode) == ClassifyPath(c, true, p + ['/'] + q, decode)
    ensures ClassifyPath(c, true, ['/'] + q, decode) == ClassifyPath(c, true, q, decode)
    ensures ClassifyPath(c, true, p + ['/'], decode) == ClassifyPath(c, true, p, decode)
  {
    SlashBefore(q);
    SlashAfter(p);
    SegmentsAtSlash(p, ['/'] + q);
    SegmentsAtSlash(p, q);
    SegmentsDecide(c, p + ['/'] + (['/'] + q), p + ['/'] + q, decode);
    SegmentsDecide(c, ['/'] + q, q, decode);
    SegmentsDecide(c, p + ['/'], p, decode);
  }

  lemma SlashBefore(q: string)
    ensures RawSegments(['/'] + q) == RawSegments(q)
  {
    EmptySegments();
    SegmentsAtSlash([], q);
    assert [] + ['/'] + q == ['/'] + q;
  }

  lemma SlashAfter(p: string)
    ensures RawSegments(p + ['/']) == RawSegments(p)
  {
    EmptySegments();
    SegmentsAtSlash(p, []);
    assert p + ['/'] + [] == p + ['/'];
  }

  // ---- Formats by name ----

  /** Only ASCII letters and digits of a format count, in lower case and in order. */
  lemma FormatCharacter(c: char)
    ensures NormalizeFormat([]) == []
    ensures 'a' <= c <= 'z' || '0' <= c <= '9' ==> NormalizeFormat([c]) == [c]
    ensures 'A' <= c <= 'Z' ==> NormalizeFormat([c]) == [(c as int + 32) as char]
    ensures !('a' <= c <= 'z' || 'A' <= c <= 'Z' || '0' <= c <= '9') ==> NormalizeFormat([c]) == []
  {
    assert [c][1..] == [];
    assert NormalizeFormat([c][1..]) == [];
  }

  lemma {:induction false} FormatConcat(a: string, b: string)
    ensures NormalizeFormat(a + b) == NormalizeFormat(a) + NormalizeFormat(b)
  {
    if a == [] {
      assert a + b == b;
    } else {
      assert (a + b)[1..] == a[1..] + b;
      FormatConcat(a[1..], b);
    }
  }

  predicate MavenFormat(format: string) {
    NormalizeFormat(format) == "maven" || NormalizeFormat(format) == "maven2"
  }

  predicate NpmFormat(format: string) {
    NormalizeFormat(format) == "npm"
  }

  predicate PypiFormat(format: string) {
    NormalizeFormat(format) == "pypi" || NormalizeFormat(format) == "python"
  }

  predicate CargoFormat(format: string) {
    || NormalizeFormat(format) == "cargo" || NormalizeFormat(format) == "rust"
    || NormalizeFormat(format) == "rustcargo"
  }

  predicate GoFormat(format: string) {
    NormalizeFormat(format) == "go" || NormalizeFormat(format) == "golang"
  }

  predicate HelmFormat(format: string) {
    NormalizeFormat(format) == "helm"
  }

  /** Which formats are classified, and as what. */
  lemma FormatsByName(format: string)
    ensures KindOf(format) == Maven <==> MavenFormat(format)
    ensures KindOf(format) == Npm <==> NpmFormat(format)
    ensures KindOf(format) == Pypi <==> PypiFormat(format)
    ensures KindOf(format) == Cargo <==> CargoFormat(format)
    ensures KindOf(format) == Go <==> GoFormat(format)
    ensures KindOf(format) == Helm <==> HelmFormat(format)
  {
    hide NormalizeFormat;
  }

  /** The package with that name and version, in the configured ecosystem or else this one. */
  function PackageIn(c: ClassificationContext, ecosystem: string, name: string, version: string): ScanTarget {
    var e := if c.ecosystem.Some? then c.ecosystem.value else ecosystem;
    Package(e, Osv(e, name), Some(version))
  }

  lemma TargetsByName(c: ClassificationContext, name: string, version: string)
    ensures MavenFormat(c.format) ==> PackageTarget(c, "Maven", name, version) == PackageIn(c, "Maven", name, version)
    ensures NpmFormat(c.format) ==> PackageTarget(c, "npm", name, version) == PackageIn(c, "npm", name, version)
    ensures PypiFormat(c.format) ==> PackageTarget(c, "PyPI", name, version) == PackageIn(c, "PyPI", name, version)
    ensures CargoFormat(c.format) ==>
              PackageTarget(c, "crates.io", name, version) == PackageIn(c, "crates.io", name, version)
    ensures GoFormat(c.format) ==> PackageTarget(c, "Go", name, version) == PackageIn(c, "Go", name, version)
  {
    hide NormalizeFormat;
    FormatsByName(c.format);
  }

  /** Underscores and dots become dashes, capitals become small; nothing else changes. */
  predicate PypiName(name: string, n: string) {
    && |n| == |name|
    && forall i :: 0 <= i < |name| ==>
         if name[i] == '_' || name[i] == '.' || name[i] == '-' then n[i] == '-'
         else if 'A' <= name[i] <= 'Z' then n[i] as int == name[i] as int + 32
         else n[i] == name[i]
  }

  lemma PypiNameMeaning(name: string)
    ensures PypiName(name, NormalizePypiName(name))
    ensures forall n :: PypiName(name, n) ==> n == NormalizePypiName(name)
  {
  }

  /** Joining is undone by splitting. */
  lemma {:induction false} JoinSplit(parts: seq<string>, c: char)
    requires parts != [] && forall i :: 0 <= i < |parts| ==> c !in parts[i]
    ensures SplitOn(Join(parts, c), c) == parts
  {
    if |parts| == 1 {
      FindUnique(parts[0], c, |parts[0]|);
    } else {
      hide Find;
      var rest := Join(parts[1..], c);
      JoinSplit(parts[1..], c);
      FindAfter(parts[0], c, rest);
      var s := parts[0] + [c] + rest;
      assert s[..|parts[0]|] == parts[0] && s[|parts[0]| + 1..] == rest;
    }
  }

  /** The six kinds of file that accompany an artifact. */
  predicate Accompanies(file: string, stem: string, suffix: string) {
    file == stem + suffix && suffix in {".asc", ".md5", ".sha1", ".sha256", ".sha512", ".sig"}
  }

  ghost predicate IsAccompanying(file: string) {
    exists stem, suffix :: Accompanies(file, stem, suffix)
  }

  lemma EndsWithMeaning(file: string, suffix: string)
    ensures EndsWith(file, suffix) <==> exists stem :: file == stem + suffix
  {
    if EndsWith(file, suffix) {
      assert file == file[..|file| - |suffix|] + suffix;
    }
  }

  lemma SidecarMeaning(file: string)
    ensures IsSidecar(file) <==> IsAccompanying(file)
  {
    forall suffix
      ensures EndsWith(file, suffix) <==> exists stem :: file == stem + suffix
    {
      EndsWithMeaning(file, suffix);
    }
    if IsSidecar(file) {
      var suffix :| suffix in {".asc", ".md5", ".sha1", ".sha256", ".sha512", ".sig"} && EndsWith(file, suffix);
      var stem :| file == stem + suffix;
      assert Accompanies(file, stem, suffix);
    }
    if stem, suffix :| Accompanies(file, stem, suffix) {
      assert EndsWith(file, suffix);
    }
  }

  // ---- Pieces ----

  lemma StripSuffixOf(stem: string, suffix: string)
    ensures StripSuffix(stem + suffix, suffix) == Some(stem)
  {
  }

  /** A file with one extension has no other extension that differs in one of its last characters. */
  lemma OtherSuffix(stem: string, suffix: string, other: string, k: nat)
    requires k < |suffix| && k < |other| && suffix[|suffix| - 1 - k] != other[|other| - 1 - k]
    ensures StripSuffix(stem + suffix, other).None?
  {
    var s := stem + suffix;
    assert s[|s| - 1 - k] == suffix[|suffix| - 1 - k];
  }

  lemma {:induction false} JoinNonEmpty(parts: seq<string>, separator: char)
    requires parts != [] && AllClean(parts)
    ensures Join(parts, separator) != []
  {
  }

  lemma {:induction false} FindLastUnique(a: string, b: string, c: char)
    requires c !in b
    ensures FindLast(a + [c] + b, c) == Some(|a|)
    decreases |b|
  {
    var s := a + [c] + b;
    if b == [] {
      assert s[|s| - 1] == c;
    } else {
      var n := |b| - 1;
      assert s[|s| - 1] == b[n] != c;
      assert s[..|s| - 1] == a + [c] + b[..n];
      FindLastUnique(a, b[..n], c);
    }
  }

  // ---- One law per format ----

  /** group/artifact/version/artifact-version.ext */
  lemma MavenRoundTrip(c: ClassificationContext, decode: string -> string, group: seq<string>, artifact: string,
                       version: string, tail: string)
    requires MavenFormat(c.format) && Transparent(decode)
    requires group != [] && AllClean(group) && Clean(artifact) && Clean(version) && '/' !in tail && '%' !in tail
    requires var file := artifact + "-" + version + tail; !IsAccompanying(file) && file != "maven-metadata.xml"
    ensures ClassifyPath(c, true, PathOf(group + [artifact, version, artifact + "-" + version + tail]), decode)
         == Some(PackageIn(c, "Maven", Join(group, '.') + ":" + artifact, version))
  {
    hide NormalizeFormat, EcosystemOf, IsSidecar;
    FormatsByName(c.format);
    TargetsByName(c, Join(group, '.') + ":" + artifact, version);
    SidecarMeaning(artifact + "-" + version + tail);
    var file := artifact + "-" + version + tail;
    var segs := group + [artifact, version, file];
    assert Clean(file);
    DecodedSegmentsOfPath(segs, decode);
    assert segs[..|segs| - 3] == group;
    JoinNonEmpty(group, '.');
    ContainsAt(artifact + "-", version, tail);
  }

  /** name/-/name-version.tgz */
  lemma NpmRoundTrip(c: ClassificationContext, decode: string -> string, name: string, version: string)
    requires NpmFormat(c.format) && Transparent(decode)
    requires Clean(name) && Clean(version)
    ensures ClassifyPath(c, true, PathOf([name, "-", name + "-" + version + ".tgz"]), decode)
         == Some(PackageIn(c, "npm", name, version))
  {
    hide NormalizeFormat, EcosystemOf;
    FormatsByName(c.format);
    TargetsByName(c, name, version);
    var file := name + "-" + version + ".tgz";
    assert Clean("-") && Clean(file);
    DecodedSegmentsOfPath([name, "-", file], decode);
    NpmStem(name, version);
  }

  /** @scope/name/-/name-version.tgz */
  lemma ScopedNpmRoundTrip(c: ClassificationContext, decode: string -> string, scope: string, name: string,
                           version: string)
    requires NpmFormat(c.format) && Transparent(decode)
    requires Clean(scope) && scope[0] == '@' && Clean(name) && Clean(version)
    ensures ClassifyPath(c, true, PathOf([scope, name, "-", name + "-" + version + ".tgz"]), decode)
         == Some(PackageIn(c, "npm", scope + "/" + name, version))
  {
    hide NormalizeFormat, EcosystemOf;
    FormatsByName(c.format);
    TargetsByName(c, scope + "/" + name, version);
    var file := name + "-" + version + ".tgz";
    assert Clean("-") && Clean(file);
    DecodedSegmentsOfPath([scope, name, "-", file], decode);
    NpmStem(name, version);
  }

  lemma NpmStem(name: string, version: string)
    ensures StripSuffix(name + "-" + version + ".tgz", ".tgz") == Some(name + "-" + version)
    ensures StripPrefix(name + "-" + version, name + "-") == Some(version)
  {
    StripSuffixOf(name + "-" + version, ".tgz");
    assert name + "-" <= name + "-" + version;
    assert (name + "-" + version)[|name + "-"|..] == version;
  }

  /** directories.../name-version.tar.gz, .zip or .tgz, for a version without a dash */
  lemma SdistRoundTrip(c: ClassificationContext, decode: string -> string, directories: seq<string>, name: string,
                       normal: string, version: string, extension: string)
    requires PypiFormat(c.format) && Transparent(decode) && PypiName(name, normal)
    requires AllClean(directories) && Clean(name) && Clean(version) && '-' !in version
    requires extension == ".tar.gz" || extension == ".zip" || extension == ".tgz"
    ensures ClassifyPath(c, true, PathOf(directories + [name + "-" + version + extension]), decode)
         == Some(PackageIn(c, "PyPI", normal, version))
  {
    hide NormalizeFormat, EcosystemOf, NormalizePypiName, PypiName, ClassifyPypi, SdistTarget;
    FormatsByName(c.format);
    TargetsByName(c, normal, version);
    PypiNameMeaning(name);
    var stem := name + "-" + version;
    assert Clean(stem + extension);
    DecodedSegmentsOfPath(directories + [stem + extension], decode);
    SdistFile(c, directories + [stem + extension], stem, extension);
    SdistName(c, name, version);
  }

  lemma SdistFile(c: ClassificationContext, segs: seq<string>, stem: string, extension: string)
    requires segs != [] && segs[|segs| - 1] == stem + extension
    requires extension == ".tar.gz" || extension == ".zip" || extension == ".tgz"
    ensures ClassifyPypi(c, segs) == SdistTarget(c, stem)
  {
    hide SdistTarget, StripSuffix, SplitOn;
    SdistStem(stem, extension);
  }

  lemma SdistName(c: ClassificationContext, name: string, version: string)
    requires '-' !in version
    ensures SdistTarget(c, name + "-" + version) == Some(PackageTarget(c, "PyPI", NormalizePypiName(name), version))
  {
    hide FindLast, NormalizePypiName, EcosystemOf;
    var stem := name + "-" + version;
    FindLastUnique(name, version, '-');
    assert stem == name + ['-'] + version;
    assert stem[..|name|] == name && stem[|name| + 1..] == version;
  }

  lemma SdistStem(stem: string, extension: string)
    requires extension == ".tar.gz" || extension == ".zip" || extension == ".tgz"
    ensures StripSuffix(stem + extension, ".whl").None?
    ensures OrElse(StripSuffix(stem + extension, ".tar.gz"),
                   OrElse(StripSuffix(stem + extension, ".zip"), StripSuffix(stem + extension, ".tgz"))) == Some(stem)
  {
    OtherSuffix(stem, extension, ".whl", 0);
    StripSuffixOf(stem, extension);
    if extension == ".zip" {
      OtherSuffix(stem, extension, ".tar.gz", 0);
    } else if extension == ".tgz" {
      OtherSuffix(stem, extension, ".tar.gz", 2);
      OtherSuffix(stem, extension, ".zip", 0);
    }
  }

  /** directories.../name-version-tags.whl, for a name and a version without a dash */
  lemma WheelRoundTrip(c: ClassificationContext, decode: string -> string, directories: seq<string>, name: string,
                       normal: string, version: string, tags: string)
    requires PypiFormat(c.format) && Transparent(decode) && PypiName(name, normal)
    requires AllClean(directories) && Clean(name) && Clean(version) && Clean(tags) && '-' !in name && '-' !in version
    ensures ClassifyPath(c, true, PathOf(directories + [name + ['-'] + (version + ['-'] + tags) + ".whl"]), decode)
         == Some(PackageIn(c, "PyPI", normal, version))
  {
    hide NormalizeFormat, EcosystemOf, NormalizePypiName, PypiName;
    FormatsByName(c.format);
    TargetsByName(c, normal, version);
    PypiNameMeaning(name);
    var stem := name + ['-'] + (version + ['-'] + tags);
    assert Clean(stem + ".whl");
    DecodedSegmentsOfPath(directories + [stem + ".whl"], decode);
    StripSuffixOf(stem, ".whl");
    WheelParts(name, version, tags);
  }

  lemma WheelParts(name: string, version: string, tags: string)
    requires '-' !in name && '-' !in version
    ensures var parts := SplitOn(name + ['-'] + (version + ['-'] + tags), '-');
            |parts| >= 2 && parts[0] == name && parts[1] == version
  {
    SplitFirst(name, version + ['-'] + tags);
    SplitFirst(version, tags);
  }

  lemma SplitFirst(first: string, rest: string)
    requires '-' !in first
    ensures SplitOn(first + ['-'] + rest, '-') == [first] + SplitOn(rest, '-')
  {
    var s := first + ['-'] + rest;
    FindAfter(first, '-', rest);
    assert s[..|first|] == first;
    assert s[|first| + 1..] == rest;
  }

  /** api/v1/crates/name/version/download */
  lemma CargoRoundTrip(c: ClassificationContext, decode: string -> string, name: string, version: string)
    requires CargoFormat(c.format) && Transparent(decode)
    requires Clean(name) && Clean(version)
    ensures ClassifyPath(c, true, PathOf(["api", "v1", "crates", name, version, "download"]), decode)
         == Some(PackageIn(c, "crates.io", name, version))
  {
    hide NormalizeFormat, EcosystemOf;
    FormatsByName(c.format);
    TargetsByName(c, name, version);
    assert CRATES + [name, version, "download"] == ["api", "v1", "crates", name, version, "download"];
    var segs := CRATES + [name, version, "download"];
    CrateWordsClean();
    DecodedSegmentsOfPath(segs, decode);
    assert segs[..3] == CRATES;
  }

  lemma CrateWordsClean()
    ensures AllClean(CRATES) && Clean("download")
  {
    assert Clean("api") && Clean("v1") && Clean("crates");
  }

  /** path/@v/version.zip, .mod or .info, for a module path without an `@v` segment */
  lemma GoRoundTrip(c: ClassificationContext, decode: string -> string, path: seq<string>, version: string,
                    extension: string)
    requires GoFormat(c.format) && Transparent(decode)
    requires path != [] && AllClean(path) && "@v" !in path && Clean(version)
    requires extension == ".zip" || extension == ".mod" || extension == ".info"
    ensures ClassifyPath(c, true, PathOf(path + ["@v", version + extension]), decode)
         == Some(PackageIn(c, "Go", Join(path, '/'), version))
  {
    hide NormalizeFormat, EcosystemOf;
    FormatsByName(c.format);
    TargetsByName(c, Join(path, '/'), version);
    var file := version + extension;
    var segs := path + ["@v", file];
    assert Clean("@v") && Clean(file);
    DecodedSegmentsOfPath(segs, decode);
    MarkerAfter(path, ["@v", file]);
    assert segs[..|path|] == path;
    JoinNonEmpty(path, '/');
    GoVersion(version, extension);
  }

  lemma GoVersion(version: string, extension: string)
    requires extension == ".zip" || extension == ".mod" || extension == ".info"
    ensures OrElse(StripSuffix(version + extension, ".zip"),
                   OrElse(StripSuffix(version + extension, ".mod"), StripSuffix(version + extension, ".info")))
            == Some(version)
  {
    StripSuffixOf(version, extension);
    if extension == ".mod" {
      OtherSuffix(version, extension, ".zip", 0);
    } else if extension == ".info" {
      OtherSuffix(version, extension, ".zip", 0);
      OtherSuffix(version, extension, ".mod", 0);
    }
  }

  lemma {:induction false} MarkerAfter(path: seq<string>, rest: seq<string>)
    requires "@v" !in path && rest != [] && rest[0] == "@v"
    ensures MarkerIndex(path + rest) == |path|
  {
    if path == [] {
      assert path + rest == rest;
    } else {
      assert path[0] in path;
      assert (path + rest)[1..] == path[1..] + rest;
      MarkerAfter(path[1..], rest);
    }
  }
}
