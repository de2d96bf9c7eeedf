/** The record `go list -m -json` writes for one module. pkg/checker/util.go:48-55 and
    pkg/module/list.go:70-78 declare it twice with the same six fields; it is defined once here. */
module GoList {
  datatype GoModuleInfo = GoModuleInfo(
    path: string, version: string, main: bool, dir: string, goMod: string, goVersion: string)
}
