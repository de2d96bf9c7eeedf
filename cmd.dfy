/** The `dependencies` command: classify every module of the build list, write one report entry
    per `name@version`, and copy the sources that the license category asks for. */
module Cmd {
  import opened Wrappers
  import opened GoStrings
  import opened GoList
  import Checker

  /** What the command does, in order: report writes and filesystem actions. */
  datatype Event =
    | Header(mod: string, licenseName: string)   // "Library <mod> used under the <name> License, …"
    | LicenseText(text: string)                  // the bytes of the license file
    | Separator                                  // "\n==============================\n\n"
    | MakeDir(path: string)                      // os.MkdirAll, its error ignored
    | CopyDir(src: string, dst: string)          // dirutil.CopyDirectory
    | QueryModInfo(root: string)                 // s.GoModInfo(args[0])

  datatype RunError =
    | InitFailed(message: string)
    | ListAllFailed(message: string)
    | OpenReportFailed(message: string)
    | ClassifyFailed(message: string)
    | ReadFailed(message: string)
    | CopyFailed(message: string)
    | ModInfoFailed(message: string)
    | Restricted(mod: string, licenseName: string)

  /** The external capabilities: setting up the working area, the build list, creating
      `LICENSES.txt`, the classifier's own capabilities (whose `readFile` also reads the license
      files), the outcome of each directory copy given all that was done before it, and the
      module information of the command's argument. */
  datatype CmdEnv = CmdEnv(
    init: Option<string>,
    listAll: Result<seq<GoModuleInfo>, string>,
    openReport: Option<string>,
    checker: Checker.Env,
    copyDir: (seq<Event>, string, string) -> Option<string>,
    goModInfo: Result<GoModuleInfo, string>)

  /** The state the loop carries: the `seen` keys and everything done so far. */
  datatype Log = Log(seen: set<string>, events: seq<Event>)

  /** The key of a report entry. */
  function ModKey(li: Checker.LicenseInfo): string {
    li.libraryName + "@" + li.libraryVersion
  }

  /** What an event writes to `LICENSES.txt`. */
  function EventText(e: Event): string {
    match e
    case Header(mod, name) => "Library " + mod + " used under the " + name + " License, reproduced below:\n\n"
    case LicenseText(t) => t
    case Separator => "\n==============================\n\n"
    case _ => ""
  }

  /** The text `LICENSES.txt` ends up with. */
  function ReportText(events: seq<Event>): string {
    if events == [] then "" else EventText(events[0]) + ReportText(events[1..])
  }

  /** `os.MkdirAll` and `dirutil.CopyDirectory` of a source directory into `thirdparty/<name>`. */
  function CopyThirdPartyF(st: Log, li: Checker.LicenseInfo, env: CmdEnv): (Log, Option<RunError>) {
    var dst := JoinPath("thirdparty", li.libraryName);
    var before := st.events + [MakeDir(dst)];
    var st1 := Log(st.seen, before + [CopyDir(li.sourceDir, dst)]);
    match env.copyDir(before, li.sourceDir, dst)
    case Some(e) => (st1, Some(CopyFailed(e)))
    case None => (st1, None)
  }

  /** The first-party copy, made the first time an LGPL-licensed module is met. */
  function CopyFirstPartyF(st: Log, info: GoModuleInfo, env: CmdEnv): (Log, Option<RunError>) {
    if "LGPL" in st.seen then (st, None)
    else
      var dst := JoinPath("firstparty", info.path);
      var before := st.events + [MakeDir(dst)];
      var st1 := Log(st.seen + {"LGPL"}, before + [CopyDir(info.dir, dst)]);
      match env.copyDir(before, info.dir, dst)
      case Some(e) => (st1, Some(CopyFailed(e)))
      case None => (st1, None)
  }

  /** The LGPL case of a `restricted` license: the third-party copy, the module information of
      the command's argument, and the first-party copy. */
  function LgplF(st: Log, li: Checker.LicenseInfo, root: string, env: CmdEnv): (Log, Option<RunError>) {
    var (st2, e2) := CopyThirdPartyF(st, li, env);
    if e2.Some? then (st2, e2)
    else
      var st3 := Log(st2.seen, st2.events + [QueryModInfo(root)]);
      match env.goModInfo
      case Failure(e) => (st3, Some(ModInfoFailed(e)))
      case Success(info) => CopyFirstPartyF(st3, info, env)
  }

  /** What the license category asks for once the report entry is written. */
  function DispatchF(st: Log, li: Checker.LicenseInfo, root: string, env: CmdEnv): (Log, Option<RunError>) {
    if li.licenseType == "reciprocal" then CopyThirdPartyF(st, li, env)
    else if li.licenseType == "restricted" then
      if HasPrefix(li.licenseName, "LGPL") then LgplF(st, li, root, env)
      else (st, Some(Restricted(ModKey(li), li.licenseName)))
    else (st, None)
  }

  /** One `LicenseInfo` of the inner loop (cmd.go:65-106). */
  function ProcessF(st: Log, li: Checker.LicenseInfo, root: string, env: CmdEnv): (Log, Option<RunError>) {
    var mod := ModKey(li);
    if mod in st.seen then (st, None)
    else
      var seen := st.seen + {mod};
      var withHeader := st.events + [Header(mod, li.licenseName)];
      match env.checker.readFile(li.licenseFile)
      case Failure(e) => (Log(seen, withHeader), Some(ReadFailed(e)))
      case Success(text) => DispatchF(Log(seen, withHeader + [LicenseText(text)] + [Separator]), li, root, env)
  }

  /** The inner loop over the entries of one module, stopping at the first error. */
  function ProcessAllF(st: Log, lis: seq<Checker.LicenseInfo>, root: string, env: CmdEnv): (Log, Option<RunError>)
    decreases |lis|
  {
    if lis == [] then (st, None)
    else
      var (st1, e1) := ProcessF(st, lis[0], root, env);
      if e1.Some? then (st1, e1) else ProcessAllF(st1, lis[1..], root, env)
  }

  /** The rest of the outer loop, once the entries of a module are processed. */
  function Continue(r: (Log, Option<RunError>), mods: seq<GoModuleInfo>, root: string, env: CmdEnv): (Log, Option<RunError>)
    decreases |mods|, 2
  {
    if r.1.Some? then r else RunModules(r.0, mods, root, env)
  }

  /** The outer loop over the modules: `ErrNoLicenseFound` continues, any other classification
      error ends the run. */
  function RunModules(st: Log, mods: seq<GoModuleInfo>, root: string, env: CmdEnv): (Log, Option<RunError>)
    decreases |mods|, 1
  {
    if mods == [] then (st, None)
    else
      var out := Checker.ClassifySpec(mods[0], env.checker);
      if out.err.Some? && out.err.value.IoError? then (st, Some(ClassifyFailed(out.err.value.message)))
      else Continue(ProcessAllF(st, out.infos, root, env), mods[1..], root, env)
  }

  /** The whole `RunE` of the `dependencies` command for the argument `root`. */
  function RunF(root: string, env: CmdEnv): (Log, Option<RunError>) {
    var empty := Log({}, []);
    if env.init.Some? then (empty, Some(InitFailed(env.init.value)))
    else
      match env.listAll
      case Failure(e) => (empty, Some(ListAllFailed(e)))
      case Success(list) =>
        if env.openReport.Some? then (empty, Some(OpenReportFailed(env.openReport.value)))
        else RunModules(empty, list, root, env)
  }

  // ---------------------------------------------------------------------------------------
  // Properties

  /** The sentinel `"LGPL"` is never the key of a module: keys contain `@`. */
  lemma SentinelNotAKey(li: Checker.LicenseInfo)
    ensures '@' in ModKey(li) && ModKey(li) != "LGPL"
  {
    assert ModKey(li)[|li.libraryName|] == '@';
  }

  /** The modules of the report headers, in order. */
  function HeaderMods(events: seq<Event>): seq<string> {
    if events == [] then []
    else (if events[0].Header? then [events[0].mod] else []) + HeaderMods(events[1..])
  }

  /** The copies into `firstparty`. */
  function FirstPartyCopies(events: seq<Event>): nat {
    if events == [] then 0
    else (if events[0].CopyDir? && HasPrefix(events[0].dst, "firstparty") then 1 else 0) + FirstPartyCopies(events[1..])
  }

  lemma EventsConcat(a: seq<Event>, b: seq<Event>)
    ensures HeaderMods(a + b) == HeaderMods(a) + HeaderMods(b)
    ensures FirstPartyCopies(a + b) == FirstPartyCopies(a) + FirstPartyCopies(b)
    ensures ReportText(a + b) == ReportText(a) + ReportText(b)
  {
    HeaderModsConcat(a, b);
    FirstPartyConcat(a, b);
    ReportTextConcat(a, b);
  }

  lemma {:induction false} HeaderModsConcat(a: seq<Event>, b: seq<Event>)
    ensures HeaderMods(a + b) == HeaderMods(a) + HeaderMods(b)
  {
    if a == [] {
      assert a + b == b;
    } else {
      var h := if a[0].Header? then [a[0].mod] else [];
      assert (a + b)[0] == a[0] && (a + b)[1..] == a[1..] + b;
      HeaderModsConcat(a[1..], b);
      calc {
        HeaderMods(a + b);
        h + HeaderMods(a[1..] + b);
        h + (HeaderMods(a[1..]) + HeaderMods(b));
        (h + HeaderMods(a[1..])) + HeaderMods(b);
      }
    }
  }

  lemma {:induction false} FirstPartyConcat(a: seq<Event>, b: seq<Event>)
    ensures FirstPartyCopies(a + b) == FirstPartyCopies(a) + FirstPartyCopies(b)
  {
    if a == [] {
      assert a + b == b;
    } else {
      assert (a + b)[0] == a[0] && (a + b)[1..] == a[1..] + b;
      FirstPartyConcat(a[1..], b);
    }
  }

  lemma {:induction false} ReportTextConcat(a: seq<Event>, b: seq<Event>)
    ensures ReportText(a + b) == ReportText(a) + ReportText(b)
  {
    if a == [] {
      assert a + b == b;
    } else {
      assert (a + b)[0] == a[0] && (a + b)[1..] == a[1..] + b;
      ReportTextConcat(a[1..], b);
      calc {
        ReportText(a + b);
        EventText(a[0]) + ReportText(a[1..] + b);
        EventText(a[0]) + (ReportText(a[1..]) + ReportText(b));
        (EventText(a[0]) + ReportText(a[1..])) + ReportText(b);
      }
    }
  }

  /** What the loop keeps true: each key of `seen` other than the sentinel has exactly one
      report entry, every key is a module key or the sentinel, and there has been one
      first-party copy exactly when the sentinel is set. */
  ghost predicate Consistent(st: Log) {
    && (forall m :: m in st.seen ==> m == "LGPL" || '@' in m)
    && (forall m :: m in HeaderMods(st.events) <==> m in st.seen && m != "LGPL")
    && (forall i, j :: 0 <= i < j < |HeaderMods(st.events)| ==> HeaderMods(st.events)[i] != HeaderMods(st.events)[j])
    && FirstPartyCopies(st.events) == if "LGPL" in st.seen then 1 else 0
  }

  /** The destination of a third-party copy is never under `firstparty`. */
  lemma ThirdPartyNotFirst(name: string)
    ensures !HasPrefix(JoinPath("thirdparty", name), "firstparty")
  {
    assert JoinPath("thirdparty", name)[0] == 't';
  }

  lemma FirstPartyIsFirst(path: string)
    ensures HasPrefix(JoinPath("firstparty", path), "firstparty")
  {
    assert JoinPath("firstparty", path)[..10] == "firstparty";
  }

  lemma OneEvent(e: Event)
    ensures HeaderMods([e]) == (if e.Header? then [e.mod] else [])
    ensures FirstPartyCopies([e]) == (if e.CopyDir? && HasPrefix(e.dst, "firstparty") then 1 else 0)
    ensures ReportText([e]) == EventText(e)
  {
    assert [e][1..] == [];
  }

  /** One more event adds its own part to each measure of the log. */
  lemma AppendEvent(events: seq<Event>, e: Event)
    ensures HeaderMods(events + [e]) == HeaderMods(events) + (if e.Header? then [e.mod] else [])
    ensures FirstPartyCopies(events + [e])
         == FirstPartyCopies(events) + (if e.CopyDir? && HasPrefix(e.dst, "firstparty") then 1 else 0)
    ensures ReportText(events + [e]) == ReportText(events) + EventText(e)
  {
    EventsConcat(events, [e]);
    OneEvent(e);
  }

  /** An event that is neither a header nor a first-party copy keeps the invariant. */
  lemma QuietKeeps(st: Log, e: Event)
    requires Consistent(st)
    requires !e.Header? && !(e.CopyDir? && HasPrefix(e.dst, "firstparty"))
    ensures Consistent(Log(st.seen, st.events + [e]))
  {
    AppendEvent(st.events, e);
  }

  lemma ThirdPartyKeeps(st: Log, li: Checker.LicenseInfo, env: CmdEnv)
    requires Consistent(st)
    ensures Consistent(CopyThirdPartyF(st, li, env).0)
    ensures st.events <= CopyThirdPartyF(st, li, env).0.events && CopyThirdPartyF(st, li, env).0.seen == st.seen
  {
    var dst := JoinPath("thirdparty", li.libraryName);
    var before := st.events + [MakeDir(dst)];
    ThirdPartyNotFirst(li.libraryName);
    QuietKeeps(st, MakeDir(dst));
    QuietKeeps(Log(st.seen, before), CopyDir(li.sourceDir, dst));
    assert st.events <= before <= before + [CopyDir(li.sourceDir, dst)];
  }

  lemma FirstPartyKeeps(st: Log, info: GoModuleInfo, env: CmdEnv)
    requires Consistent(st)
    ensures Consistent(CopyFirstPartyF(st, info, env).0)
    ensures st.events <= CopyFirstPartyF(st, info, env).0.events && st.seen <= CopyFirstPartyF(st, info, env).0.seen
  {
    if "LGPL" !in st.seen {
      var dst := JoinPath("firstparty", info.path);
      var before := st.events + [MakeDir(dst)];
      FirstPartyIsFirst(info.path);
      AppendEvent(st.events, MakeDir(dst));
      AppendEvent(before, CopyDir(info.dir, dst));
      assert st.events <= before <= before + [CopyDir(info.dir, dst)];
    }
  }

  /** A new report entry keeps the invariant: its key was not yet seen. */
  lemma HeaderKeeps(st: Log, li: Checker.LicenseInfo)
    requires Consistent(st) && ModKey(li) !in st.seen
    ensures Consistent(Log(st.seen + {ModKey(li)}, st.events + [Header(ModKey(li), li.licenseName)]))
  {
    var mod := ModKey(li);
    SentinelNotAKey(li);
    AppendEvent(st.events, Header(mod, li.licenseName));
    assert mod !in HeaderMods(st.events);
  }

  /** One entry keeps the invariant and only appends to what was done. */
  lemma ProcessKeeps(st: Log, li: Checker.LicenseInfo, root: string, env: CmdEnv)
    requires Consistent(st)
    ensures var st1 := ProcessF(st, li, root, env).0;
      Consistent(st1) && st.events <= st1.events && st.seen <= st1.seen
  {
    var mod := ModKey(li);
    if mod !in st.seen {
      var seen := st.seen + {mod};
      var withHeader := st.events + [Header(mod, li.licenseName)];
      HeaderKeeps(st, li);
      var sth := Log(seen, withHeader);
      match env.checker.readFile(li.licenseFile)
      case Failure(_) =>
      case Success(text) =>
        var withText := withHeader + [LicenseText(text)];
        QuietKeeps(sth, LicenseText(text));
        QuietKeeps(Log(seen, withText), Separator);
        assert st.events <= withHeader <= withText <= withText + [Separator];
        DispatchKeeps(Log(seen, withText + [Separator]), li, root, env);
    }
  }

  lemma DispatchKeeps(st: Log, li: Checker.LicenseInfo, root: string, env: CmdEnv)
    requires Consistent(st)
    ensures var st1 := DispatchF(st, li, root, env).0;
      Consistent(st1) && st.events <= st1.events && st.seen <= st1.seen
  {
    ThirdPartyKeeps(st, li, env);
    var st2 := CopyThirdPartyF(st, li, env).0;
    var st3 := Log(st2.seen, st2.events + [QueryModInfo(root)]);
    QuietKeeps(st2, QueryModInfo(root));
    if env.goModInfo.Success? {
      FirstPartyKeeps(st3, env.goModInfo.value, env);
    }
  }

  lemma {:induction false} ProcessAllKeeps(st: Log, lis: seq<Checker.LicenseInfo>, root: string, env: CmdEnv)
    requires Consistent(st)
    ensures var st1 := ProcessAllF(st, lis, root, env).0;
      Consistent(st1) && st.events <= st1.events && st.seen <= st1.seen
    decreases |lis|
  {
    if lis != [] {
      ProcessKeeps(st, lis[0], root, env);
      var (st1, e1) := ProcessF(st, lis[0], root, env);
      if e1.None? {
        ProcessAllKeeps(st1, lis[1..], root, env);
      }
    }
  }

  lemma {:induction false} RunModulesKeeps(st: Log, mods: seq<GoModuleInfo>, root: string, env: CmdEnv)
    requires Consistent(st)
    ensures var st1 := RunModules(st, mods, root, env).0;
      Consistent(st1) && st.events <= st1.events && st.seen <= st1.seen
    decreases |mods|
  {
    if mods != [] {
      var out := Checker.ClassifySpec(mods[0], env.checker);
      if !(out.err.Some? && out.err.value.IoError?) {
        ProcessAllKeeps(st, out.infos, root, env);
        var r := ProcessAllF(st, out.infos, root, env);
        if r.1.None? {
          RunModulesKeeps(r.0, mods[1..], root, env);
        }
      }
    }
  }

  /** However the run ends, the report has at most one entry per `name@version`, exactly one per
      key in `seen`, and the first-party sources were copied at most once, exactly when the
      sentinel is set. */
  lemma RunAtMostOnce(root: string, env: CmdEnv)
    ensures Consistent(RunF(root, env).0)
    ensures FirstPartyCopies(RunF(root, env).0.events) <= 1
  {
    var empty := Log({}, []);
    assert HeaderMods([]) == [];
    if env.init.None? && env.listAll.Success? && env.openReport.None? {
      RunModulesKeeps(empty, env.listAll.value, root, env);
    }
  }

  /** A key already seen produces nothing: no report entry, no copy. */
  lemma SeenSkipped(st: Log, li: Checker.LicenseInfo, root: string, env: CmdEnv)
    requires ModKey(li) in st.seen
    ensures ProcessF(st, li, root, env) == (st, None)
  {
  }

  /** The report only grows: an entry appends its header, the license text and the separator,
      and the header is written before the license file is read. */
  lemma ReportEntry(st: Log, li: Checker.LicenseInfo, root: string, env: CmdEnv)
    requires ModKey(li) !in st.seen
    ensures var header := "Library " + ModKey(li) + " used under the " + li.licenseName + " License, reproduced below:\n\n";
      var r := env.checker.readFile(li.licenseFile);
      && (r.Failure? ==>
            ReportText(ProcessF(st, li, root, env).0.events) == ReportText(st.events) + header
            && ProcessF(st, li, root, env).1 == Some(ReadFailed(r.error)))
      && (r.Success? ==>
            ReportText(ProcessF(st, li, root, env).0.events)
            == ReportText(st.events) + header + r.value + "\n==============================\n\n")
  {
    var h := Header(ModKey(li), li.licenseName);
    AppendEvent(st.events, h);
    var r := env.checker.readFile(li.licenseFile);
    if r.Success? {
      var withHeader := st.events + [h];
      var text := r.value;
      AppendEvent(withHeader, LicenseText(text));
      AppendEvent(withHeader + [LicenseText(text)], Separator);
      var st1 := Log(st.seen + {ModKey(li)}, withHeader + [LicenseText(text)] + [Separator]);
      DispatchText(st1, li, root, env);
      assert ProcessF(st, li, root, env) == DispatchF(st1, li, root, env);
    }
  }

  /** The category's actions do not write to the report. */
  lemma DispatchText(st: Log, li: Checker.LicenseInfo, root: string, env: CmdEnv)
    ensures ReportText(DispatchF(st, li, root, env).0.events) == ReportText(st.events)
  {
    ThirdPartyText(st, li, env);
    var st2 := CopyThirdPartyF(st, li, env).0;
    AppendEvent(st2.events, QueryModInfo(root));
    if env.goModInfo.Success? {
      FirstPartyText(Log(st2.seen, st2.events + [QueryModInfo(root)]), env.goModInfo.value, env);
    }
  }

  /** Copies do not write to the report. */
  lemma ThirdPartyText(st: Log, li: Checker.LicenseInfo, env: CmdEnv)
    ensures ReportText(CopyThirdPartyF(st, li, env).0.events) == ReportText(st.events)
  {
    var dst := JoinPath("thirdparty", li.libraryName);
    AppendEvent(st.events, MakeDir(dst));
    AppendEvent(st.events + [MakeDir(dst)], CopyDir(li.sourceDir, dst));
  }

  lemma FirstPartyText(st: Log, info: GoModuleInfo, env: CmdEnv)
    ensures ReportText(CopyFirstPartyF(st, info, env).0.events) == ReportText(st.events)
  {
    if "LGPL" !in st.seen {
      var dst := JoinPath("firstparty", info.path);
      AppendEvent(st.events, MakeDir(dst));
      AppendEvent(st.events + [MakeDir(dst)], CopyDir(info.dir, dst));
    }
  }

  /** The category decides the copies: `reciprocal` copies the sources to `thirdparty`;
      `restricted` under a non-LGPL name ends the run after the report entry; any other
      category copies nothing. */
  lemma CategoryDispatch(st: Log, li: Checker.LicenseInfo, root: string, env: CmdEnv)
    requires ModKey(li) !in st.seen && env.checker.readFile(li.licenseFile).Success?
    ensures var (st1, err) := ProcessF(st, li, root, env);
      var entry := st.events + [Header(ModKey(li), li.licenseName), LicenseText(env.checker.readFile(li.licenseFile).value), Separator];
      var dst := JoinPath("thirdparty", li.libraryName);
      && (li.licenseType == "reciprocal" ==>
            st1.events == entry + [MakeDir(dst), CopyDir(li.sourceDir, dst)]
            && err == (if env.copyDir(entry + [MakeDir(dst)], li.sourceDir, dst).Some?
                       then Some(CopyFailed(env.copyDir(entry + [MakeDir(dst)], li.sourceDir, dst).value)) else None))
      && (li.licenseType == "restricted" && !HasPrefix(li.licenseName, "LGPL") ==>
            st1.events == entry && err == Some(Restricted(ModKey(li), li.licenseName)))
      && (li.licenseType != "reciprocal" && li.licenseType != "restricted" ==>
            st1.events == entry && err == None)
  {
    var text := env.checker.readFile(li.licenseFile).value;
    var withHeader := st.events + [Header(ModKey(li), li.licenseName)];
    assert withHeader + [LicenseText(text)] + [Separator]
        == st.events + [Header(ModKey(li), li.licenseName), LicenseText(text), Separator];
  }

  /** An LGPL-licensed module copies its sources to `thirdparty` and asks for the module
      information every time. When that query fails the run ends there, with the sentinel
      untouched; otherwise the first-party sources are copied only while the sentinel is not
      set, and afterwards it is set. */
  lemma LgplOnce(st: Log, li: Checker.LicenseInfo, root: string, env: CmdEnv)
    requires ModKey(li) !in st.seen && env.checker.readFile(li.licenseFile).Success?
    requires li.licenseType == "restricted" && HasPrefix(li.licenseName, "LGPL")
    ensures var (st1, err) := ProcessF(st, li, root, env);
      var entry := st.events + [Header(ModKey(li), li.licenseName), LicenseText(env.checker.readFile(li.licenseFile).value), Separator];
      var dst := JoinPath("thirdparty", li.libraryName);
      var copied := entry + [MakeDir(dst), CopyDir(li.sourceDir, dst)];
      env.copyDir(entry + [MakeDir(dst)], li.sourceDir, dst).None? ==>
        && (env.goModInfo.Failure? ==>
              && st1.events == copied + [QueryModInfo(root)]
              && st1.seen == st.seen + {ModKey(li)}
              && err == Some(ModInfoFailed(env.goModInfo.error)))
        && (env.goModInfo.Success? ==>
              var info := env.goModInfo.value;
              var fdst := JoinPath("firstparty", info.path);
              && (("LGPL" in st.seen) ==> st1.events == copied + [QueryModInfo(root)] && err == None)
              && (("LGPL" !in st.seen) ==>
                    st1.events == copied + [QueryModInfo(root), MakeDir(fdst), CopyDir(info.dir, fdst)]
                    && "LGPL" in st1.seen))
  {
    SentinelNotAKey(li);
    var text := env.checker.readFile(li.licenseFile).value;
    var withHeader := st.events + [Header(ModKey(li), li.licenseName)];
    var entry := st.events + [Header(ModKey(li), li.licenseName), LicenseText(text), Separator];
    assert withHeader + [LicenseText(text)] + [Separator] == entry;
    var dst := JoinPath("thirdparty", li.libraryName);
    assert entry + [MakeDir(dst)] + [CopyDir(li.sourceDir, dst)] == entry + [MakeDir(dst), CopyDir(li.sourceDir, dst)];
    var copied := entry + [MakeDir(dst), CopyDir(li.sourceDir, dst)];
    if env.goModInfo.Success? {
      var info := env.goModInfo.value;
      var fdst := JoinPath("firstparty", info.path);
      assert copied + [QueryModInfo(root)] + [MakeDir(fdst)] + [CopyDir(info.dir, fdst)]
          == copied + [QueryModInfo(root), MakeDir(fdst), CopyDir(info.dir, fdst)];
    }
  }

  /** A module without a detected license is passed over: the run goes on with the next one. */
  lemma NoLicenseContinues(st: Log, m: GoModuleInfo, rest: seq<GoModuleInfo>, root: string, env: CmdEnv)
    requires Checker.ClassifySpec(m, env.checker).err == Some(Checker.NoLicenseFound)
    ensures RunModules(st, [m] + rest, root, env) == RunModules(st, rest, root, env)
  {
    assert ([m] + rest)[0] == m && ([m] + rest)[1..] == rest;
  }

  /** Any other classification error ends the run, with nothing more done. */
  lemma ClassifyErrorAborts(st: Log, m: GoModuleInfo, rest: seq<GoModuleInfo>, root: string, env: CmdEnv)
    requires Checker.ClassifySpec(m, env.checker).err.Some?
    requires Checker.ClassifySpec(m, env.checker).err.value.IoError?
    ensures RunModules(st, [m] + rest, root, env)
         == (st, Some(ClassifyFailed(Checker.ClassifySpec(m, env.checker).err.value.message)))
  {
    assert ([m] + rest)[0] == m;
  }

  // ---------------------------------------------------------------------------------------
  // The command as a state machine

  /** The state of one run of the command: the `seen` map, as the set of its keys, and what
      was done. */
  class Compliance {
    var seen: set<string>
    var events: seq<Event>

    constructor ()
      ensures seen == {} && events == []
    {
      seen := {};
      events := [];
    }

    function State(): Log
      reads this
    {
      Log(seen, events)
    }

    /** `os.MkdirAll`, then `dirutil.CopyDirectory` into `thirdparty/<name>`. */
    method CopyThirdParty(li: Checker.LicenseInfo, env: CmdEnv) returns (err: Option<RunError>)
      modifies this
      ensures (State(), err) == CopyThirdPartyF(old(State()), li, env)
    {
      var dst := JoinPath("thirdparty", li.libraryName);
      events := events + [MakeDir(dst)];
      var e := env.copyDir(events, li.sourceDir, dst);
      events := events + [CopyDir(li.sourceDir, dst)];
      if e.Some? {
        return Some(CopyFailed(e.value));
      }
      return None;
    }

    /** One iteration of the inner loop. */
    method Process(li: Checker.LicenseInfo, root: string, env: CmdEnv) returns (err: Option<RunError>)
      modifies this
      ensures (State(), err) == ProcessF(old(State()), li, root, env)
    {
      var mod := li.libraryName + "@" + li.libraryVersion;
      if mod in seen {
        return None;
      }
      seen := seen + {mod};
      events := events + [Header(mod, li.licenseName)];
      var license := env.checker.readFile(li.licenseFile);
      if license.Failure? {
        return Some(ReadFailed(license.error));
      }
      events := events + [LicenseText(license.value)];
      events := events + [Separator];
      if li.licenseType == "reciprocal" {
        err := CopyThirdParty(li, env);
        return;
      } else if li.licenseType == "restricted" {
        if HasPrefix(li.licenseName, "LGPL") {
          err := CopyThirdParty(li, env);
          if err.Some? {
            return;
          }
          events := events + [QueryModInfo(root)];
          var info := env.goModInfo;
          if info.Failure? {
            return Some(ModInfoFailed(info.error));
          }
          if "LGPL" !in seen {
            seen := seen + {"LGPL"};
            var dst := JoinPath("firstparty", info.value.path);
            events := events + [MakeDir(dst)];
            var e := env.copyDir(events, info.value.dir, dst);
            events := events + [CopyDir(info.value.dir, dst)];
            if e.Some? {
              return Some(CopyFailed(e.value));
            }
          }
        } else {
          return Some(Restricted(mod, li.licenseName));
        }
      }
      return None;
    }

    /** The `RunE` of the `dependencies` command. */
    method Run(root: string, env: CmdEnv) returns (err: Option<RunError>)
      requires seen == {} && events == []
      modifies this
      ensures (State(), err) == RunF(root, env)
    {
      if env.init.Some? {
        return Some(InitFailed(env.init.value));
      }
      var list := env.listAll;
      if list.Failure? {
        return Some(ListAllFailed(list.error));
      }
      if env.openReport.Some? {
        return Some(OpenReportFailed(env.openReport.value));
      }
      var mods := list.value;
      var i := 0;
      while i < |mods|
        invariant 0 <= i <= |mods|
        invariant RunF(root, env) == RunModules(State(), mods[i..], root, env)
      {
        assert mods[i..][0] == mods[i] && mods[i..][1..] == mods[i + 1..];
        var out := Checker.Classify(mods[i], env.checker);
        if out.err.Some? && !out.err.value.NoLicenseFound? {
          return Some(ClassifyFailed(out.err.value.message));
        }
        var licenseInfo := out.infos;
        var j := 0;
        while j < |licenseInfo|
          invariant 0 <= j <= |licenseInfo|
          invariant RunF(root, env) == Continue(ProcessAllF(State(), licenseInfo[j..], root, env), mods[i + 1..], root, env)
        {
          assert licenseInfo[j..][0] == licenseInfo[j] && licenseInfo[j..][1..] == licenseInfo[j + 1..];
          err := Process(licenseInfo[j], root, env);
          if err.Some? {
            return;
          }
          j := j + 1;
        }
        i := i + 1;
      }
      return None;
    }
  }
}
