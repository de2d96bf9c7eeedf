/** pkg/license/classify.go: an unfinished second classifier. It looks for the obvious license
    files of a module and then always fails. */
module LicenseClassify {
  import opened Wrappers
  import opened GoList
  import opened LicensePattern

  /** `license.Info` (pkg/license/license.go). `Classify` never returns one. */
  datatype Info = Info(
    packageName: string,
    packageVersion: string,
    licenseFile: string,
    sourceDir: string,
    linkToLicense: string,
    licenseName: string,
    licenseType: string)

  /** `findObviousLicenses`: the non-directory paths of the walk whose name matches
      `possibleLicense`, in walk order; a walk error comes back with the paths found so far. */
  method FindObviousLicenses(info: GoModuleInfo, walk: string -> seq<WalkStep>)
    returns (licenseFiles: seq<string>, err: Option<string>)
    ensures err == Collected(walk(info.dir)).1
    ensures forall p :: p in licenseFiles <==> exists i :: (0 <= i < WalkEnd(walk(info.dir))
      && IsCandidateVisit(walk(info.dir)[i]) && walk(info.dir)[i].path == p)
    ensures licenseFiles == Collected(walk(info.dir)).0
  {
    licenseFiles, err := WalkCandidates(walk(info.dir));
    forall p ensures p in licenseFiles <==> exists i :: (0 <= i < WalkEnd(walk(info.dir))
      && IsCandidateVisit(walk(info.dir)[i]) && walk(info.dir)[i].path == p)
    {
      CollectedExactly(walk(info.dir), p);
    }
  }

  /** `Classify`: never succeeds; a walk error is passed through unchanged, no candidate
      file gives "fallback not implemented", and otherwise "not implemented". The analysis
      of the candidate files is only logged and is not modelled. */
  method Classify(info: GoModuleInfo, walk: string -> seq<WalkStep>)
    returns (infos: seq<Info>, err: string)
    ensures infos == []
    ensures Collected(walk(info.dir)).1.Some? ==> err == Collected(walk(info.dir)).1.value
    ensures Collected(walk(info.dir)).1.None? ==>
      err == if Collected(walk(info.dir)).0 == [] then "fallback not implemented" else "not implemented"
  {
    var licenseFiles, e := FindObviousLicenses(info, walk);
    if e.Some? {
      return [], e.value;
    }
    if |licenseFiles| == 0 {
      return [], "fallback not implemented";
    }
    return [], "not implemented";
  }
}
