/** And nothing else is classified: what a classified path must look like, format by format. */
module ClassifierOnly {
  import opened Text
  import opened Targets
  import opened Classifier
  import opened ClassifierLaws

  /** The last three segments of a Maven download, and the group before them. */
  ghost predicate MavenShape(segs: seq<string>, group: seq<string>, artifact: string, version: string, file: string) {
    && segs == group + [artifact, version, file] && group != [] && Contains(file, version)
    && !IsAccompanying(file) && file != "maven-metadata.xml"
  }

  /** Whatever is classified in a Maven repository has that shape and is that coordinate. */
  lemma MavenOnly(c: ClassificationContext, path: string, decode: string -> string, t: ScanTarget)
    requires MavenFormat(c.format) && ClassifyPath(c, true, path, decode) == Some(t)
    ensures exists group, artifact, version, file ::
              && MavenShape(DecodedSegments(path, decode), group, artifact, version, file)
              && t == PackageIn(c, "Maven", Join(group, '.') + ":" + artifact, version)
  {
    hide NormalizeFormat, EcosystemOf, IsSidecar, DecodedSegments;
    FormatsByName(c.format);
    var segs := DecodedSegments(path, decode);
    var n := |segs|;
    var (group, artifact, version, file) := (segs[..n - 3], segs[n - 3], segs[n - 2], segs[n - 1]);
    SidecarMeaning(file);
    TargetsByName(c, Join(group, '.') + ":" + artifact, version);
    assert segs == group + [artifact, version, file];
    assert MavenShape(segs, group, artifact, version, file);
  }

  /** A tarball `name-version.tgz` behind a `-` segment, or one whose version follows its last dash. */
  ghost predicate NpmShape(segs: seq<string>, package: string, version: string, tarball: string) {
    && segs != [] && (segs[|segs| - 1] == tarball + "-" + version + ".tgz"
                      || exists stem :: segs[|segs| - 1] == stem + "-" + version + ".tgz" && '-' !in version)
    && (|| (|segs| >= 3 && segs[1] == "-" && package == segs[0] && tarball == segs[0])
        || (|segs| >= 4 && segs[2] == "-" && package == segs[0] + "/" + segs[1] && tarball == segs[1]
            && segs[0] != [] && segs[0][0] == '@'))
  }

  lemma NpmVersion(stem: string, tarball: string, version: string)
    requires OrElse(StripPrefix(stem, tarball + "-"), AfterLastDash(stem)) == Some(version)
    ensures stem == tarball + "-" + version || (exists s :: stem == s + "-" + version && '-' !in version)
  {
    FindLastShape(stem, '-');
    if tarball + "-" <= stem {
      assert stem == tarball + "-" + stem[|tarball| + 1..];
    } else {
      var i := FindLast(stem, '-').value;
      assert stem == stem[..i] + "-" + stem[i + 1..];
    }
  }

  lemma NpmOnly(c: ClassificationContext, path: string, decode: string -> string, t: ScanTarget)
    requires NpmFormat(c.format) && ClassifyPath(c, true, path, decode) == Some(t)
    ensures exists package, version, tarball ::
              && NpmShape(DecodedSegments(path, decode), package, version, tarball)
              && t == PackageIn(c, "npm", package, version)
  {
    hide NormalizeFormat, EcosystemOf, DecodedSegments, AfterLastDash, StripPrefix;
    FormatsByName(c.format);
    var segs := DecodedSegments(path, decode);
    var file := segs[|segs| - 1];
    var stem := StripSuffix(file, ".tgz").value;
    assert file == stem + ".tgz";
    var scoped := |segs| >= 4 && segs[0] != [] && segs[0][0] == '@' && segs[2] == "-";
    var package := if scoped then segs[0] + "/" + segs[1] else segs[0];
    var tarball := if scoped then segs[1] else segs[0];
    assert ClassifyNpm(c, segs) == NpmTarget(c, package, tarball, stem);
    var version := OrElse(StripPrefix(stem, tarball + "-"), AfterLastDash(stem)).value;
    NpmVersion(stem, tarball, version);
    TargetsByName(c, package, version);
    assert NpmShape(segs, package, version, tarball);
  }

  /** A wheel's name and version are its first two dash-separated parts; a source archive's version follows
      its last dash. */
  ghost predicate PypiShape(file: string, name: string, version: string) {
    || (exists stem :: file == stem + ".whl" && |SplitOn(stem, '-')| >= 2
                       && name == SplitOn(stem, '-')[0] && version == SplitOn(stem, '-')[1])
    || (exists extension :: extension in {".tar.gz", ".zip", ".tgz"} && '-' !in version
                            && file == name + "-" + version + extension)
  }

  lemma SdistVersion(c: ClassificationContext, stem: string, t: ScanTarget)
    requires SdistTarget(c, stem) == Some(t)
    ensures exists name, version :: stem == name + "-" + version && '-' !in version
                                    && t == PackageTarget(c, "PyPI", NormalizePypiName(name), version)
  {
    FindLastShape(stem, '-');
    var i := FindLast(stem, '-').value;
    assert stem == stem[..i] + "-" + stem[i + 1..];
  }

  ghost predicate PypiClassified(c: ClassificationContext, file: string, t: ScanTarget) {
    exists name, normal, version ::
      PypiShape(file, name, version) && PypiName(name, normal) && t == PackageIn(c, "PyPI", normal, version)
  }

  lemma WheelOnly(c: ClassificationContext, segs: seq<string>, t: ScanTarget)
    requires PypiFormat(c.format) && segs != [] && EndsWith(segs[|segs| - 1], ".whl")
    requires ClassifyPypi(c, segs) == Some(t)
    ensures PypiClassified(c, segs[|segs| - 1], t)
  {
    hide NormalizeFormat, EcosystemOf, NormalizePypiName, PypiName, SplitOn, SdistTarget;
    var file := segs[|segs| - 1];
    var stem := file[..|file| - 4];
    assert file == stem + ".whl";
    var parts := SplitOn(stem, '-');
    PypiNameMeaning(parts[0]);
    TargetsByName(c, NormalizePypiName(parts[0]), parts[1]);
    assert PypiShape(file, parts[0], parts[1]);
  }

  lemma SdistOnly(c: ClassificationContext, file: string, stem: string, extension: string, t: ScanTarget)
    requires PypiFormat(c.format) && file == stem + extension && extension in {".tar.gz", ".zip", ".tgz"}
    requires SdistTarget(c, stem) == Some(t)
    ensures PypiClassified(c, file, t)
  {
    hide NormalizeFormat, EcosystemOf, NormalizePypiName, PypiName, SplitOn, SdistTarget;
    SdistVersion(c, stem, t);
    var name, version :| stem == name + "-" + version && '-' !in version
                         && t == PackageTarget(c, "PyPI", NormalizePypiName(name), version);
    PypiNameMeaning(name);
    TargetsByName(c, NormalizePypiName(name), version);
    assert PypiShape(file, name, version);
  }

  lemma SdistEnding(c: ClassificationContext, segs: seq<string>) returns (stem: string, extension: string)
    requires segs != [] && !EndsWith(segs[|segs| - 1], ".whl") && ClassifyPypi(c, segs).Some?
    ensures extension in {".tar.gz", ".zip", ".tgz"} && segs[|segs| - 1] == stem + extension
    ensures ClassifyPypi(c, segs) == SdistTarget(c, stem)
  {
    hide SdistTarget, SplitOn;
    var file := segs[|segs| - 1];
    extension := if EndsWith(file, ".tar.gz") then ".tar.gz" else if EndsWith(file, ".zip") then ".zip" else ".tgz";
    stem := file[..|file| - |extension|];
  }

  /** Whatever is classified in a PyPI repository is such a file. */
  lemma PypiOnly(c: ClassificationContext, path: string, decode: string -> string, t: ScanTarget)
    requires PypiFormat(c.format) && ClassifyPath(c, true, path, decode) == Some(t)
    ensures var segs := DecodedSegments(path, decode); segs != [] && PypiClassified(c, segs[|segs| - 1], t)
  {
    hide NormalizeFormat, DecodedSegments, PypiClassified, SdistTarget, EndsWith;
    FormatsByName(c.format);
    var segs := DecodedSegments(path, decode);
    if EndsWith(segs[|segs| - 1], ".whl") {
      WheelOnly(c, segs, t);
    } else {
      var stem, extension := SdistEnding(c, segs);
      SdistOnly(c, segs[|segs| - 1], stem, extension, t);
    }
  }

  lemma {:induction false} CratesIndexMeaning(segs: seq<string>)
    ensures CratesIndex(segs).Some? ==>
              CratesIndex(segs).value + 3 <= |segs|
              && segs[CratesIndex(segs).value..CratesIndex(segs).value + 3] == ["api", "v1", "crates"]
  {
    if |segs| >= 3 && segs[..3] != CRATES {
      CratesIndexMeaning(segs[1..]);
      if CratesIndex(segs[1..]).Some? {
        var i := CratesIndex(segs[1..]).value;
        assert segs[1..][i..i + 3] == segs[i + 1..i + 4];
      }
    }
  }

  ghost predicate CargoShape(segs: seq<string>, before: seq<string>, name: string, version: string,
                             after: seq<string>) {
    segs == before + ["api", "v1", "crates", name, version, "download"] + after
  }

  lemma CargoAt(segs: seq<string>, i: nat)
    requires i + 5 < |segs| && segs[i..i + 3] == ["api", "v1", "crates"] && segs[i + 5] == "download"
    ensures CargoShape(segs, segs[..i], segs[i + 3], segs[i + 4], segs[i + 6..])
  {
    assert segs[i] == segs[i..i + 3][0] && segs[i + 1] == segs[i..i + 3][1] && segs[i + 2] == segs[i..i + 3][2];
  }

  /** Whatever is classified in a Cargo repository stands behind `api/v1/crates` and before `download`. */
  lemma CargoOnly(c: ClassificationContext, path: string, decode: string -> string, t: ScanTarget)
    requires CargoFormat(c.format) && ClassifyPath(c, true, path, decode) == Some(t)
    ensures exists before, name, version, after ::
              && CargoShape(DecodedSegments(path, decode), before, name, version, after)
              && t == PackageIn(c, "crates.io", name, version)
  {
    hide NormalizeFormat, EcosystemOf, DecodedSegments, CratesIndex, CargoShape;
    FormatsByName(c.format);
    var segs := DecodedSegments(path, decode);
    CratesIndexMeaning(segs);
    var i := CratesIndex(segs).value;
    CargoAt(segs, i);
    TargetsByName(c, segs[i + 3], segs[i + 4]);
  }

  lemma {:induction false} MarkerMeaning(segs: seq<string>)
    ensures MarkerIndex(segs) < |segs| ==> segs[MarkerIndex(segs)] == "@v"
    ensures "@v" !in segs[..MarkerIndex(segs)]
  {
    if segs != [] && segs[0] != "@v" {
      MarkerMeaning(segs[1..]);
      var i := MarkerIndex(segs[1..]);
      assert segs[..i + 1] == [segs[0]] + segs[1..][..i];
    }
  }

  ghost predicate GoShape(segs: seq<string>, path: seq<string>, version: string, extension: string,
                          after: seq<string>) {
    && segs == path + ["@v", version + extension] + after && "@v" !in path
    && extension in {".zip", ".mod", ".info"}
  }

  lemma GoAt(segs: seq<string>, i: nat, version: string, extension: string)
    requires i + 1 < |segs| && segs[i] == "@v" && segs[i + 1] == version + extension && "@v" !in segs[..i]
    requires extension in {".zip", ".mod", ".info"}
    ensures GoShape(segs, segs[..i], version, extension, segs[i + 2..])
  {
  }

  lemma GoFile(file: string)
    requires OrElse(StripSuffix(file, ".zip"), OrElse(StripSuffix(file, ".mod"), StripSuffix(file, ".info"))).Some?
    ensures var version :=
              OrElse(StripSuffix(file, ".zip"), OrElse(StripSuffix(file, ".mod"), StripSuffix(file, ".info"))).value;
            exists extension :: extension in {".zip", ".mod", ".info"} && file == version + extension
  {
    var extension := if EndsWith(file, ".zip") then ".zip" else if EndsWith(file, ".mod") then ".mod" else ".info";
    assert file == file[..|file| - |extension|] + extension;
  }

  /** Whatever is classified in a Go repository is a version file behind the first `@v`. */
  lemma GoOnly(c: ClassificationContext, path: string, decode: string -> string, t: ScanTarget)
    requires GoFormat(c.format) && ClassifyPath(c, true, path, decode) == Some(t)
    ensures exists modulePath, version, extension, after ::
              && GoShape(DecodedSegments(path, decode), modulePath, version, extension, after)
              && t == PackageIn(c, "Go", Join(modulePath, '/'), version)
  {
    hide NormalizeFormat, EcosystemOf, DecodedSegments, Join, MarkerIndex, GoShape, StripSuffix, OrElse;
    FormatsByName(c.format);
    var segs := DecodedSegments(path, decode);
    MarkerMeaning(segs);
    var i := MarkerIndex(segs);
    var file := segs[i + 1];
    GoFile(file);
    var version :=
      OrElse(StripSuffix(file, ".zip"), OrElse(StripSuffix(file, ".mod"), StripSuffix(file, ".info"))).value;
    var extension :| extension in {".zip", ".mod", ".info"} && file == version + extension;
    GoAt(segs, i, version, extension);
    TargetsByName(c, Join(segs[..i], '/'), version);
  }

  /** Charts are artifacts: in a Helm repository, a last segment ending in `.tgz` or `.tar.gz` is scanned. */
  lemma HelmCharts(c: ClassificationContext, decode: string -> string, directories: seq<string>, stem: string,
                   extension: string)
    requires HelmFormat(c.format) && Transparent(decode) && AllClean(directories) && '/' !in stem && '%' !in stem
    requires extension == ".tgz" || extension == ".tar.gz"
    ensures var path := PathOf(directories + [stem + extension]);
            ClassifyPath(c, true, path, decode) == Some(Artifact(c.format, path, None))
  {
    hide NormalizeFormat;
    FormatsByName(c.format);
    assert Clean(stem + extension);
    DecodedSegmentsOfPath(directories + [stem + extension], decode);
    EndsWithMeaning(stem + extension, extension);
  }

  /** What is never scanned: other methods, other formats, and the files accompanying a Maven artifact. */
  lemma ProxiedOnly(c: ClassificationContext, decode: string -> string, segs: seq<string>)
    ensures ClassifyPath(c, false, PathOf(segs), decode) == None
    ensures !MavenFormat(c.format) && !NpmFormat(c.format) && !PypiFormat(c.format) && !CargoFormat(c.format)
            && !GoFormat(c.format) && !HelmFormat(c.format) ==>
              forall path :: ClassifyPath(c, true, path, decode) == None
    ensures MavenFormat(c.format) && Transparent(decode) && AllClean(segs) && segs != []
            && IsAccompanying(segs[|segs| - 1]) ==>
              ClassifyPath(c, true, PathOf(segs), decode) == None
  {
    hide NormalizeFormat, IsSidecar, IsAccompanying;
    FormatsByName(c.format);
    if Transparent(decode) && AllClean(segs) && segs != [] {
      SidecarMeaning(segs[|segs| - 1]);
      DecodedSegmentsOfPath(segs, decode);
    }
  }

  lemma DockerIsNotHelm()
    ensures KindOf("docker") != Helm
  {
    var word := "docker";
    assert NormalizeFormat(word)[0] == 'd';
  }

  /** Whatever the path, a classified artifact is addressed by that path, has no digest and is not in
      a Docker repository. */
  lemma ClassifiedArtifactsAreAddressedByPath(c: ClassificationContext, fetches: bool, path: string,
                                              decode: string -> string)
    ensures var r := ClassifyPath(c, fetches, path, decode);
            r.Some? && r.value.Artifact? ==> r.value == Artifact(c.format, path, None) && c.format != "docker"
  {
    DockerIsNotHelm();
  }

  /** Whatever the path, a classified package is a coordinate on which cache keys are injective. */
  lemma ClassifiedPackagesAreCoordinates(c: ClassificationContext, fetches: bool, path: string,
                                         decode: string -> string)
    ensures ClassifyPath(c, fetches, path, decode).Some? && ClassifyPath(c, fetches, path, decode).value.Package? ==>
              IsOsvPackage(ClassifyPath(c, fetches, path, decode).value)
  {
  }
}
