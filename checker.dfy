/** pkg/checker/license.go: license resolution for one module and the categorisation of a
    license name. The detection libraries are inputs (`Env`). */
module Checker {
  import opened Wrappers
  import opened GoStrings
  import opened LicensePattern
  import opened GoList

  /** `checker.LicenseInfo`, the classification of one module. */
  datatype LicenseInfo = LicenseInfo(
    libraryName: string,
    libraryVersion: string,
    licenseFile: string,
    sourceDir: string,
    linkToLicense: string,
    licenseName: string,
    licenseType: string)

  /** One match of `licensedb.Analyse`; a float32 confidence becomes an ordered integer score. */
  datatype DetectedMatch = DetectedMatch(license: string, confidence: int, file: string)

  /** One result of `licensedb.Analyse`: the analysed argument, its matches and an error text. */
  datatype AnalyseResult = AnalyseResult(arg: string, matches: seq<DetectedMatch>, errStr: string)

  /** One match of the content classifier (`classifier.Match`). */
  datatype ClassifierMatch = ClassifierMatch(name: string, confidence: int)

  /** The external capabilities the resolver calls. */
  datatype Env = Env(
    analyse: string -> seq<AnalyseResult>,        // licensedb.Analyse(dir)
    walk: string -> seq<WalkStep>,                // the callbacks of filepath.Walk(dir, ...)
    readFile: string -> Result<string, string>,   // ioutil.ReadFile
    matchContent: string -> seq<ClassifierMatch>, // s.classifier.Match(content)
    taxonomy: string -> string)                   // licenseclassifier.LicenseType

  /** `ErrNoLicenseFound`, or an I/O error passed through from the walk or a file read. */
  datatype ClassifyError = NoLicenseFound | IoError(message: string)

  /** The `([]LicenseInfo, error)` pair `Classify` and `deepClassify` return. */
  datatype Outcome = Outcome(infos: seq<LicenseInfo>, err: Option<ClassifyError>)

  // ---------------------------------------------------------------------------
  // Names and categories

  /** `licenseName`: the MPL-2.0 and LGPL-3.0 families are reduced to their short name. */
  function LicenseName(l: string): (r: string)
    ensures HasPrefix(l, "MPL-2.0") ==> r == "MPL-2.0"
    ensures HasPrefix(l, "LGPL-3.0") || HasPrefix(l, "deprecated_LGPL-3.0") ==> r == "LGPL-3.0"
    ensures (!HasPrefix(l, "MPL-2.0") && !HasPrefix(l, "LGPL-3.0")
             && !HasPrefix(l, "deprecated_LGPL-3.0")) ==> r == l
  {
    if HasPrefix(l, "MPL-2.0") then assert l[0] == 'M'; "MPL-2.0"
    else if HasPrefix(l, "LGPL-3.0") then "LGPL-3.0"
    else if HasPrefix(l, "deprecated_LGPL-3.0") then "LGPL-3.0"
    else l
  }

  lemma LicenseNameIdempotent(l: string)
    ensures LicenseName(LicenseName(l)) == LicenseName(l)
  {
    var r := LicenseName(l);
    if r == "MPL-2.0" {
      assert HasPrefix(r, "MPL-2.0");
    } else if r == "LGPL-3.0" {
      assert !HasPrefix(r, "MPL-2.0") && HasPrefix(r, "LGPL-3.0");
    }
  }

  /** `licenseType`: the category of a license; names starting with `0BSD` are `notice`
      whatever the taxonomy says, and a name the taxonomy does not know is `restricted`. */
  function LicenseType(taxonomy: string -> string, license: string): (r: string)
    ensures r != ""
    ensures HasPrefix(LicenseName(license), "0BSD") ==> r == "notice"
    ensures !HasPrefix(LicenseName(license), "0BSD") ==>
              r == if taxonomy(LicenseName(license)) == "" then "restricted"
                   else taxonomy(LicenseName(license))
  {
    var name := LicenseName(license);
    if HasPrefix(name, "0BSD") then "notice"
    else
      var l := taxonomy(name);
      if |l| == 0 then "restricted" else l
  }

  /** Categorising a name and categorising its normalised form agree. */
  lemma LicenseTypeNormalised(taxonomy: string -> string, license: string)
    ensures LicenseType(taxonomy, license) == LicenseType(taxonomy, LicenseName(license))
  {
    LicenseNameIdempotent(license);
  }

  /** The 0BSD rule does not consult the taxonomy. */
  lemma ZeroBsdOverride(t1: string -> string, t2: string -> string, license: string)
    requires HasPrefix(license, "0BSD")
    ensures LicenseType(t1, license) == LicenseType(t2, license) == "notice"
  {
    assert !HasPrefix(license, "MPL-2.0") by { assert license[0] == '0'; }
    assert !HasPrefix(license, "LGPL-3.0") by { assert license[0] == '0'; }
    assert !HasPrefix(license, "deprecated_LGPL-3.0") by { assert license[0] == '0'; }
  }

  /** `createLink`: the web address of the license file in the module's repository. */
  function CreateLink(moduleName: string, moduleVersion: string, licensePath: string): (r: string)
    ensures HasPrefix(r, "https://" + moduleName + "/tree/" + moduleVersion + "/")
    ensures |r| == 15 + |moduleName| + |moduleVersion| + |licensePath|
    ensures r[|r| - |licensePath|..] == licensePath
  {
    var r := "https://" + moduleName + "/tree/" + moduleVersion + "/" + licensePath;
    assert r[..|"https://" + moduleName + "/tree/" + moduleVersion + "/"|]
        == "https://" + moduleName + "/tree/" + moduleVersion + "/";
    r
  }

  // ---------------------------------------------------------------------------
  // The highest-confidence selection of the fast path (license.go:43-56)

  /** A match the selection may pick: positive confidence and no `docs` in its path. */
  predicate Eligible(m: DetectedMatch) {
    m.confidence > 0 && !Contains(m.file, "docs")
  }

  /** The loop state `max`, `license`, `licenseFile`. */
  datatype Pick = Pick(max: int, license: string, file: string)

  const NoPick := Pick(0, "", "")

  /** One iteration of the selection loop. */
  function Step(p: Pick, m: DetectedMatch): Pick {
    if m.confidence > p.max && !Contains(m.file, "docs") then Pick(m.confidence, m.license, m.file)
    else p
  }

  /** The loop state after the matches `ms`. */
  function Scan(ms: seq<DetectedMatch>): Pick {
    if ms == [] then NoPick else Step(Scan(ms[..|ms| - 1]), ms[|ms| - 1])
  }

  /** `ms[k]` is the first eligible match of greatest confidence. */
  ghost predicate FirstBest(ms: seq<DetectedMatch>, k: int) {
    0 <= k < |ms| && Eligible(ms[k])
    && (forall j :: 0 <= j < |ms| && Eligible(ms[j]) ==> ms[j].confidence <= ms[k].confidence)
    && (forall j :: 0 <= j < k && Eligible(ms[j]) ==> ms[j].confidence < ms[k].confidence)
  }

  ghost predicate NoneEligible(ms: seq<DetectedMatch>) {
    forall j :: 0 <= j < |ms| ==> !Eligible(ms[j])
  }

  /** The selection keeps nothing when no match is eligible, and otherwise the first eligible
      match of greatest confidence: a later tie never replaces it. */
  lemma {:induction false} ScanPicksFirstBest(ms: seq<DetectedMatch>)
    ensures NoneEligible(ms) ==> Scan(ms) == NoPick
    ensures !NoneEligible(ms) ==>
      exists k :: FirstBest(ms, k) && Scan(ms) == Pick(ms[k].confidence, ms[k].license, ms[k].file)
  {
    if ms != [] {
      var n := |ms| - 1;
      var init := ms[..n];
      ScanPicksFirstBest(init);
      var m := ms[n];
      assert Scan(ms) == Step(Scan(init), m);
      if NoneEligible(init) {
        NoneEligibleExtended(ms);
      } else {
        var k :| FirstBest(init, k) && Scan(init) == Pick(init[k].confidence, init[k].license, init[k].file);
        BestExtended(ms, k);
      }
    }
  }

  /** The selection step, from a state holding no eligible match. */
  lemma NoneEligibleExtended(ms: seq<DetectedMatch>)
    requires ms != [] && NoneEligible(ms[..|ms| - 1])
    ensures var m := ms[|ms| - 1];
      if Eligible(m) then FirstBest(ms, |ms| - 1) && Step(NoPick, m) == Pick(m.confidence, m.license, m.file)
      else NoneEligible(ms) && Step(NoPick, m) == NoPick
  {
    var n := |ms| - 1;
    assert forall j :: 0 <= j < n ==> ms[..n][j] == ms[j];
  }

  /** The selection step, from a state holding the first best match `k` of the matches so far. */
  lemma BestExtended(ms: seq<DetectedMatch>, k: int)
    requires ms != [] && FirstBest(ms[..|ms| - 1], k)
    ensures var m := ms[|ms| - 1];
      var p := Pick(ms[k].confidence, ms[k].license, ms[k].file);
      if Eligible(m) && m.confidence > ms[k].confidence
      then FirstBest(ms, |ms| - 1) && Step(p, m) == Pick(m.confidence, m.license, m.file)
      else FirstBest(ms, k) && Step(p, m) == p
  {
    var n := |ms| - 1;
    assert forall j :: 0 <= j < n ==> ms[..n][j] == ms[j];
  }

  // ---------------------------------------------------------------------------
  // The fast path (license.go:30-74)

  /** The `LicenseInfo` literal of license.go:58-66 for the selected `license` and `licenseFile`. */
  function FastInfo(info: GoModuleInfo, arg: string, license: string, licenseFile: string,
                    taxonomy: string -> string): LicenseInfo {
    LicenseInfo(
      libraryName := info.path,
      libraryVersion := info.version,
      licenseFile := JoinPath(arg, licenseFile),
      sourceDir := info.dir,
      linkToLicense := CreateLink(info.path, info.version, TrimPrefix(licenseFile, info.dir + "/")),
      licenseName := LicenseName(license),
      licenseType := LicenseType(taxonomy, license))
  }

  /** The entry `Classify` appends for one analysis result. */
  function FastEntry(info: GoModuleInfo, r: AnalyseResult, taxonomy: string -> string): LicenseInfo {
    var p := Scan(r.matches);
    FastInfo(info, r.arg, p.license, p.file, taxonomy)
  }

  function FastEntriesOf(info: GoModuleInfo, results: seq<AnalyseResult>, taxonomy: string -> string): seq<LicenseInfo> {
    seq(|results|, i requires 0 <= i < |results| => FastEntry(info, results[i], taxonomy))
  }

  /** The entries of a prefix of the results, one more result at a time. */
  lemma FastEntriesPrefix(info: GoModuleInfo, results: seq<AnalyseResult>, j: int, taxonomy: string -> string)
    requires 0 <= j <= |results|
    ensures j == 0 ==> FastEntriesOf(info, results[..j], taxonomy) == []
    ensures j > 0 ==>
      FastEntriesOf(info, results[..j], taxonomy)
      == FastEntriesOf(info, results[..j - 1], taxonomy) + [FastEntry(info, results[j - 1], taxonomy)]
  {
    if j > 0 {
      var a := FastEntriesOf(info, results[..j], taxonomy);
      var b := FastEntriesOf(info, results[..j - 1], taxonomy) + [FastEntry(info, results[j - 1], taxonomy)];
      assert |a| == |b|;
      forall k | 0 <= k < |a| ensures a[k] == b[k] {
        assert results[..j][k] == results[k];
        if k < j - 1 { assert results[..j - 1][k] == results[k]; }
      }
    }
  }

  predicate HasErrStr(results: seq<AnalyseResult>) {
    exists i :: 0 <= i < |results| && results[i].errStr != ""
  }

  /** What `Classify` returns: any result with an error text hands the module to the deep
      path, otherwise one entry per result, and no entry at all is `ErrNoLicenseFound`. */
  function ClassifySpec(info: GoModuleInfo, env: Env): (out: Outcome)
    ensures out.err == None ==> |out.infos| > 0
    ensures out.err == Some(NoLicenseFound) ==> out.infos == []
  {
    var results := env.analyse(info.dir);
    if HasErrStr(results) then DeepClassifySpec(info, env)
    else
      var licenses := FastEntriesOf(info, results, env.taxonomy);
      if |licenses| == 0 then Outcome([], Some(NoLicenseFound)) else Outcome(licenses, None)
  }

  /** Each fast-path entry names the first eligible match of greatest confidence of its
      result, or, when none is eligible, the empty license and the result's own argument. */
  lemma FastEntrySelects(info: GoModuleInfo, r: AnalyseResult, taxonomy: string -> string)
    ensures NoneEligible(r.matches) ==>
      var e := FastEntry(info, r, taxonomy);
      e.licenseName == "" && e.licenseFile == r.arg && e.licenseType == LicenseType(taxonomy, "")
    ensures !NoneEligible(r.matches) ==> exists k :: (FirstBest(r.matches, k) &&
      var e := FastEntry(info, r, taxonomy);
      e.licenseName == LicenseName(r.matches[k].license)
      && e.licenseType == LicenseType(taxonomy, r.matches[k].license)
      && e.licenseFile == JoinPath(r.arg, r.matches[k].file))
  {
    ScanPicksFirstBest(r.matches);
  }

  // ---------------------------------------------------------------------------
  // The deep path (license.go:76-114)

  /** The entry `deepClassify` appends for one classifier match of one candidate file
      (license.go:99-107). */
  function DeepEntry(info: GoModuleInfo, file: string, m: ClassifierMatch, taxonomy: string -> string): LicenseInfo {
    LicenseInfo(
      libraryName := info.path,
      libraryVersion := info.version,
      licenseFile := file,
      sourceDir := info.dir,
      linkToLicense := CreateLink(info.path, info.version, TrimPrefix(file, info.dir + "/")),
      licenseName := LicenseName(m.name),
      licenseType := LicenseType(taxonomy, m.name))
  }

  function DeepEntriesOf(info: GoModuleInfo, file: string, ms: seq<ClassifierMatch>, taxonomy: string -> string): seq<LicenseInfo> {
    seq(|ms|, i requires 0 <= i < |ms| => DeepEntry(info, file, ms[i], taxonomy))
  }

  /** Reading the candidate files in order and classifying each: every match of every file
      becomes an entry; a read error stops with the entries built so far. */
  function ReadCandidates(info: GoModuleInfo, files: seq<string>, env: Env): (out: Outcome)
    ensures out.err.Some? ==> out.err.value.IoError?
  {
    if files == [] then Outcome([], None)
    else match env.readFile(files[0])
      case Failure(e) => Outcome([], Some(IoError(e)))
      case Success(content) =>
        var rest := ReadCandidates(info, files[1..], env);
        Outcome(DeepEntriesOf(info, files[0], env.matchContent(content), env.taxonomy) + rest.infos, rest.err)
  }

  /** What `deepClassify` returns. A walk error returns `licenses`, still nil at that point. */
  function DeepClassifySpec(info: GoModuleInfo, env: Env): (out: Outcome)
    ensures out.err == None ==> |out.infos| > 0
    ensures out.err == Some(NoLicenseFound) ==> out.infos == []
  {
    var walked := Collected(env.walk(info.dir));
    if walked.1.Some? then Outcome([], Some(IoError(walked.1.value)))
    else
      var read := ReadCandidates(info, walked.0, env);
      if read.err.Some? then read
      else if |read.infos| == 0 then Outcome([], Some(NoLicenseFound))
      else read
  }

  /** Every deep-path entry belongs to one of the candidate files, read in order. */
  lemma {:induction false} ReadCandidatesFromFiles(info: GoModuleInfo, files: seq<string>, env: Env)
    ensures forall e :: e in ReadCandidates(info, files, env).infos ==>
      e.licenseFile in files && e.libraryName == info.path && e.sourceDir == info.dir
    ensures ReadCandidates(info, files, env).err.Some? ==>
      exists f :: f in files && env.readFile(f).Failure?
  {
    if files != [] {
      ReadCandidatesFromFiles(info, files[1..], env);
      var r := ReadCandidates(info, files[1..], env);
      if env.readFile(files[0]).Success? {
        if r.err.Some? {
          var f :| f in files[1..] && env.readFile(f).Failure?;
          assert f in files;
        }
      }
    }
  }

  /** The deep path only reports files that the walk offered as candidates: visited before
      any walk error, not directories, and named by the pattern. */
  lemma DeepEntriesAreCandidates(info: GoModuleInfo, env: Env, e: LicenseInfo)
    requires e in DeepClassifySpec(info, env).infos
    ensures exists i :: (0 <= i < WalkEnd(env.walk(info.dir))
      && IsCandidateVisit(env.walk(info.dir)[i]) && env.walk(info.dir)[i].path == e.licenseFile)
  {
    var walked := Collected(env.walk(info.dir));
    ReadCandidatesFromFiles(info, walked.0, env);
    CollectedExactly(env.walk(info.dir), e.licenseFile);
  }

  /** The number of entries the candidate files give: the matches of each file read. */
  function MatchCount(files: seq<string>, env: Env): nat {
    if files == [] then 0
    else
      (match env.readFile(files[0]) case Failure(_) => 0 case Success(c) => |env.matchContent(c)|)
      + MatchCount(files[1..], env)
  }

  /** Without a read error every candidate file is read, every match of every file gives an
      entry, and there are exactly as many entries as matches. */
  lemma {:induction false} ReadCandidatesComplete(info: GoModuleInfo, files: seq<string>, env: Env)
    ensures var out := ReadCandidates(info, files, env);
      out.err == None ==>
        && |out.infos| == MatchCount(files, env)
        && (forall f :: f in files ==> env.readFile(f).Success?)
        && (forall f, m :: f in files && env.readFile(f).Success? && m in env.matchContent(env.readFile(f).value)
              ==> DeepEntry(info, f, m, env.taxonomy) in out.infos)
  {
    if files != [] {
      ReadCandidatesComplete(info, files[1..], env);
      var out := ReadCandidates(info, files, env);
      if env.readFile(files[0]).Success? && out.err == None {
        var ms := env.matchContent(env.readFile(files[0]).value);
        var head := DeepEntriesOf(info, files[0], ms, env.taxonomy);
        var rest := ReadCandidates(info, files[1..], env);
        assert out.infos == head + rest.infos;
        forall f | f in files ensures env.readFile(f).Success? {
          if f != files[0] { assert f in files[1..]; }
        }
        forall f, m | f in files && env.readFile(f).Success? && m in env.matchContent(env.readFile(f).value)
          ensures DeepEntry(info, f, m, env.taxonomy) in out.infos
        {
          if f == files[0] {
            var k :| 0 <= k < |ms| && ms[k] == m;
            assert head[k] == DeepEntry(info, f, m, env.taxonomy);
            assert out.infos[k] == head[k];
          } else {
            assert f in files[1..];
            assert DeepEntry(info, f, m, env.taxonomy) in rest.infos;
          }
        }
      }
    }
  }

  /** The candidate files are read in order: reading `a + b` is reading `a`, then, unless that
      failed, `b`, whose entries come after those of `a`. */
  lemma {:induction false} ReadCandidatesThen(info: GoModuleInfo, a: seq<string>, b: seq<string>, env: Env)
    ensures ReadCandidates(info, a + b, env)
         == var r := ReadCandidates(info, a, env);
            if r.err.Some? then r
            else Outcome(r.infos + ReadCandidates(info, b, env).infos, ReadCandidates(info, b, env).err)
  {
    if a == [] {
      assert a + b == b;
    } else {
      var f, t := a[0], a[1..];
      assert a == [f] + t;
      assert a + b == [f] + (t + b);
      ReadCandidatesThen(info, t, b, env);
      ReadCandidatesCons(info, f, t, env);
      ReadCandidatesCons(info, f, t + b, env);
      if env.readFile(f).Success? {
        var head := DeepEntriesOf(info, f, env.matchContent(env.readFile(f).value), env.taxonomy);
        var r := ReadCandidates(info, t, env);
        if r.err.None? {
          ConcatAssoc(head, r.infos, ReadCandidates(info, b, env).infos);
        }
      }
    }
  }

  /** `ReadCandidates` of a file followed by more files, one step unfolded. */
  lemma ReadCandidatesCons(info: GoModuleInfo, f: string, rest: seq<string>, env: Env)
    ensures ReadCandidates(info, [f] + rest, env)
         == if env.readFile(f).Failure? then Outcome([], Some(IoError(env.readFile(f).error)))
            else
              var r := ReadCandidates(info, rest, env);
              Outcome(DeepEntriesOf(info, f, env.matchContent(env.readFile(f).value), env.taxonomy) + r.infos, r.err)
  {
    assert ([f] + rest)[0] == f && ([f] + rest)[1..] == rest;
  }

  /** Without an error the deep path reads every candidate the walk offers, reports every
      match of each, and has exactly as many entries as there are matches. */
  lemma DeepClassifyComplete(info: GoModuleInfo, env: Env, i: int)
    requires DeepClassifySpec(info, env).err == None
    requires 0 <= i < WalkEnd(env.walk(info.dir)) && IsCandidateVisit(env.walk(info.dir)[i])
    ensures var p := env.walk(info.dir)[i].path;
      && env.readFile(p).Success?
      && (forall m :: m in env.matchContent(env.readFile(p).value) ==>
            DeepEntry(info, p, m, env.taxonomy) in DeepClassifySpec(info, env).infos)
      && |DeepClassifySpec(info, env).infos| == MatchCount(Collected(env.walk(info.dir)).0, env)
  {
    var steps := env.walk(info.dir);
    var p := steps[i].path;
    CollectedExactly(steps, p);
    ReadCandidatesComplete(info, Collected(steps).0, env);
  }

  // ---------------------------------------------------------------------------
  // The imperative procedures

  /** Any result with an error text makes the outcome that of the deep path, whatever the
      entries built before it. */
  lemma ClassifyDeep(info: GoModuleInfo, env: Env)
    requires HasErrStr(env.analyse(info.dir))
    ensures ClassifySpec(info, env) == DeepClassifySpec(info, env)
  {
  }

  /** Without error texts the outcome is the entries of the results, or `ErrNoLicenseFound`. */
  lemma ClassifyFast(info: GoModuleInfo, env: Env, licenses: seq<LicenseInfo>)
    requires !HasErrStr(env.analyse(info.dir))
    requires |licenses| == |env.analyse(info.dir)|
    requires forall j :: 0 <= j < |licenses| ==> licenses[j] == FastEntry(info, env.analyse(info.dir)[j], env.taxonomy)
    ensures ClassifySpec(info, env)
         == if |licenses| == 0 then Outcome([], Some(NoLicenseFound)) else Outcome(licenses, None)
  {
    assert licenses == FastEntriesOf(info, env.analyse(info.dir), env.taxonomy);
  }

  /** The selection loop of license.go:43-56. */
  method SelectMatch(matches: seq<DetectedMatch>) returns (max: int, license: string, licenseFile: string)
    ensures Pick(max, license, licenseFile) == Scan(matches)
  {
    max, license, licenseFile := 0, "", "";
    var j := 0;
    while j < |matches|
      invariant 0 <= j <= |matches|
      invariant Pick(max, license, licenseFile) == Scan(matches[..j])
    {
      var m := matches[j];
      if m.confidence > max {
        if !Contains(m.file, "docs") {
          max, license, licenseFile := m.confidence, m.license, m.file;
        }
      }
      assert matches[..j + 1][..j] == matches[..j];
      j := j + 1;
    }
    assert matches[..j] == matches;
  }

  /** The body of the loop over the analysis results (license.go:43-66): the selection,
      then the entry built from it. */
  method ResultEntry(info: GoModuleInfo, r: AnalyseResult, taxonomy: string -> string)
    returns (entry: LicenseInfo)
    ensures entry == FastEntry(info, r, taxonomy)
  {
    var max, license, licenseFile := SelectMatch(r.matches);
    entry := FastInfo(info, r.arg, license, licenseFile, taxonomy);
  }

  /** `Classify`, as the Go loop: one entry per analysis result, built by the selection loop;
      the first result with an error text hands over to `deepClassify`. */
  method Classify(info: GoModuleInfo, env: Env) returns (out: Outcome)
    ensures out == ClassifySpec(info, env)
  {
    var licenses: seq<LicenseInfo> := [];
    var result := env.analyse(info.dir);
    var i := 0;
    FastEntriesPrefix(info, result, 0, env.taxonomy);
    while i < |result|
      invariant 0 <= i <= |result|
      invariant forall j :: 0 <= j < i ==> result[j].errStr == ""
      invariant licenses == FastEntriesOf(info, result[..i], env.taxonomy)
    {
      var r := result[i];
      if |r.errStr| != 0 {
        assert HasErrStr(result);
        ClassifyDeep(info, env);
        out := DeepClassify(info, env);
        return;
      }
      var entry := ResultEntry(info, r, env.taxonomy);
      FastEntriesPrefix(info, result, i + 1, env.taxonomy);
      licenses := licenses + [entry];
      i := i + 1;
    }
    assert result[..i] == result;
    ClassifyFast(info, env, licenses);
    if |licenses| == 0 {
      return Outcome([], Some(NoLicenseFound));
    }
    return Outcome(licenses, None);
  }

  /** The entries of one candidate file's matches, appended in match order (license.go:98-108). */
  method AppendMatches(licenses: seq<LicenseInfo>, info: GoModuleInfo, licenseFile: string,
                       matches: seq<ClassifierMatch>, taxonomy: string -> string)
    returns (result: seq<LicenseInfo>)
    ensures result == licenses + DeepEntriesOf(info, licenseFile, matches, taxonomy)
  {
    result := licenses;
    var j := 0;
    DeepEntriesPrefix(info, licenseFile, matches, 0, taxonomy);
    while j < |matches|
      invariant 0 <= j <= |matches|
      invariant result == licenses + DeepEntriesOf(info, licenseFile, matches[..j], taxonomy)
    {
      var entry := DeepEntry(info, licenseFile, matches[j], taxonomy);
      DeepEntriesPrefix(info, licenseFile, matches, j + 1, taxonomy);
      ConcatAssoc(licenses, DeepEntriesOf(info, licenseFile, matches[..j], taxonomy), [entry]);
      result := result + [entry];
      j := j + 1;
    }
    assert matches[..j] == matches;
  }

  /** The entries of a prefix of the matches, one more match at a time. */
  lemma DeepEntriesPrefix(info: GoModuleInfo, file: string, ms: seq<ClassifierMatch>, j: int, taxonomy: string -> string)
    requires 0 <= j <= |ms|
    ensures j == 0 ==> DeepEntriesOf(info, file, ms[..j], taxonomy) == []
    ensures j > 0 ==>
      DeepEntriesOf(info, file, ms[..j], taxonomy)
      == DeepEntriesOf(info, file, ms[..j - 1], taxonomy) + [DeepEntry(info, file, ms[j - 1], taxonomy)]
  {
    if j > 0 {
      var a := DeepEntriesOf(info, file, ms[..j], taxonomy);
      var b := DeepEntriesOf(info, file, ms[..j - 1], taxonomy) + [DeepEntry(info, file, ms[j - 1], taxonomy)];
      assert |a| == |b|;
      forall k | 0 <= k < |a| ensures a[k] == b[k] {
        assert ms[..j][k] == ms[k];
        if k < j - 1 { assert ms[..j - 1][k] == ms[k]; }
      }
    }
  }

  /** `ReadCandidates` from the `i`-th candidate on, one step unfolded. */
  lemma ReadCandidatesAt(info: GoModuleInfo, files: seq<string>, i: int, env: Env)
    requires 0 <= i <= |files|
    ensures i == |files| ==> ReadCandidates(info, files[i..], env) == Outcome([], None)
    ensures i < |files| && env.readFile(files[i]).Failure? ==>
      ReadCandidates(info, files[i..], env) == Outcome([], Some(IoError(env.readFile(files[i]).error)))
    ensures i < |files| && env.readFile(files[i]).Success? ==>
      var rest := ReadCandidates(info, files[i + 1..], env);
      ReadCandidates(info, files[i..], env)
        == Outcome(DeepEntriesOf(info, files[i], env.matchContent(env.readFile(files[i]).value), env.taxonomy) + rest.infos, rest.err)
  {
    if i < |files| {
      assert files[i..][0] == files[i] && files[i..][1..] == files[i + 1..];
    }
  }

  /** After a walk without error, the deep path is the reading of the candidates it collected. */
  lemma DeepClassifyReads(info: GoModuleInfo, env: Env, files: seq<string>)
    requires Collected(env.walk(info.dir)) == (files, None)
    ensures var read := ReadCandidates(info, files, env);
      DeepClassifySpec(info, env)
        == if read.err.None? && |read.infos| == 0 then Outcome([], Some(NoLicenseFound)) else read
  {
  }

  /** `deepClassify`: collect the candidate files of the walk, then read and classify each. */
  method DeepClassify(info: GoModuleInfo, env: Env) returns (out: Outcome)
    ensures out == DeepClassifySpec(info, env)
  {
    var licenses: seq<LicenseInfo> := [];
    var licenseFiles, err := WalkCandidates(env.walk(info.dir));
    if err.Some? {
      return Outcome(licenses, Some(IoError(err.value)));
    }
    DeepClassifyReads(info, env, licenseFiles);
    ghost var read := ReadCandidates(info, licenseFiles, env);
    var i := 0;
    assert licenseFiles[0..] == licenseFiles;
    while i < |licenseFiles|
      invariant 0 <= i <= |licenseFiles|
      invariant read == Outcome(licenses + ReadCandidates(info, licenseFiles[i..], env).infos,
                                ReadCandidates(info, licenseFiles[i..], env).err)
    {
      var licenseFile := licenseFiles[i];
      ReadCandidatesAt(info, licenseFiles, i, env);
      var content := env.readFile(licenseFile);
      if content.Failure? {
        assert licenses + [] == licenses;
        return Outcome(licenses, Some(IoError(content.error)));
      }
      ghost var rest := ReadCandidates(info, licenseFiles[i + 1..], env);
      ghost var entries := DeepEntriesOf(info, licenseFile, env.matchContent(content.value), env.taxonomy);
      ghost var before := licenses;
      licenses := AppendMatches(licenses, info, licenseFile, env.matchContent(content.value), env.taxonomy);
      ConcatAssoc(before, entries, rest.infos);
      i := i + 1;
    }
    ReadCandidatesAt(info, licenseFiles, i, env);
    assert licenses + [] == licenses;
    if |licenses| == 0 {
      return Outcome([], Some(NoLicenseFound));
    }
    return Outcome(licenses, None);
  }
}
