/** The `go list` calls of a downloaded module: `list` for the module itself, `listAll` for the
    modules of its build list, and `mod2ModuleInfo` for each of those. */
module GoModule {
  import opened Wrappers
  import opened GoStrings
  import opened GoList

  /** `ErrModuleNotInitialised`, or the error of `exec` or of `json.Unmarshal`, by its message. */
  datatype ListError = ErrModuleNotInitialised | Err(message: string)

  /** The external capabilities: the combined output of a `go` command line (which runs in the
      module's working area with its environment), and the JSON decoding of `go list -json`. */
  datatype GoEnv = GoEnv(run: seq<string> -> Result<string, string>,
                         decode: string -> Result<GoModuleInfo, string>)

  /** The argument `list` names: the module, with `@version` when a version is set. */
  function Target(name: string, version: string): string {
    if |version| > 0 then name + "@" + version else name
  }

  /** The target splits back into the module name and the version at its first `@`. */
  lemma TargetSplits(name: string, version: string)
    requires '@' !in name
    ensures version == "" ==> Target(name, version) == name
    ensures version != "" ==> (var t := Target(name, version);
      '@' in t && t[..IndexOf(t, '@')] == name && t[IndexOf(t, '@') + 1..] == version)
  {
    if version != "" {
      var t := Target(name, version);
      assert t[|name|] == '@';
      assert t[..|name|] == name && t[|name| + 1..] == version;
    }
  }

  /** `go list -m -json <target>` and the decoding of its output (`mod2ModuleInfo`, and the
      body of `list`). */
  function QueryInfo(env: GoEnv, target: string): (r: Result<GoModuleInfo, ListError>)
    ensures r.Success? <==> env.run(["go", "list", "-m", "-json", target]).Success?
                            && env.decode(env.run(["go", "list", "-m", "-json", target]).value).Success?
  {
    match env.run(["go", "list", "-m", "-json", target])
    case Failure(e) => Failure(Err(e))
    case Success(out) =>
      match env.decode(out)
      case Failure(e) => Failure(Err(e))
      case Success(info) => Success(info)
  }

  /** What `bytes.Buffer.ReadString('\n')` yields on the unread bytes `buf`: the text up to and
      including the first newline, or, with `io.EOF`, all that is left. */
  datatype ReadResult = ReadResult(line: string, rest: string, eof: bool)

  function ReadString(buf: string): (r: ReadResult)
    ensures r.line + r.rest == buf
    ensures !r.eof ==> |r.line| > 0 && r.line[|r.line| - 1] == '\n' && '\n' !in r.line[..|r.line| - 1]
    ensures r.eof <==> '\n' !in buf
    ensures r.eof ==> r.rest == []
  {
    if '\n' in buf then
      var i := IndexOf(buf, '\n');
      assert buf[..i + 1][..i] == buf[..i];
      ReadResult(buf[..i + 1], buf[i + 1..], false)
    else ReadResult(buf, [], true)
  }

  /** The newline-terminated lines of `buf`; an unterminated last line is not among them. */
  function CompleteLines(buf: string): seq<string>
    decreases |buf|
  {
    var r := ReadString(buf);
    if r.eof then [] else [r.line] + CompleteLines(r.rest)
  }

  /** `strings.Join(strings.Split(strings.TrimSpace(line), " "), "@")`. */
  function NameVersion(line: string): string {
    Join(Split(TrimSpace(line), ' '), '@')
  }

  /** The `nameVersion` arguments of the lines, blank ones skipped, in line order. */
  function Targets(lines: seq<string>): seq<string> {
    if lines == [] then []
    else
      var nv := NameVersion(lines[0]);
      (if |TrimSpace(nv)| == 0 then [] else [nv]) + Targets(lines[1..])
  }

  /** `mod2ModuleInfo` on each target in turn, stopping at the first failure. */
  function QueryAll(env: GoEnv, targets: seq<string>): Result<seq<GoModuleInfo>, ListError> {
    if targets == [] then Success([])
    else
      match QueryInfo(env, targets[0])
      case Failure(e) => Failure(e)
      case Success(info) => Prepend([info], QueryAll(env, targets[1..]))
  }

  function Prepend(infos: seq<GoModuleInfo>, r: Result<seq<GoModuleInfo>, ListError>): Result<seq<GoModuleInfo>, ListError> {
    match r
    case Success(rest) => Success(infos + rest)
    case Failure(e) => Failure(e)
  }

  /** What `listAll` returns for an initialised module. */
  function ListAllOf(env: GoEnv): Result<seq<GoModuleInfo>, ListError> {
    match env.run(["go", "list", "-m", "all"])
    case Failure(e) => Failure(Err(e))
    case Success(out) => QueryAll(env, Targets(CompleteLines(ReadString(out).rest)))
  }

  /** The queries succeed exactly when each target's does, and then give one result per target,
      in order; otherwise the error is that of the first failing target. */
  lemma {:induction false} QueryAllInOrder(env: GoEnv, targets: seq<string>)
    ensures QueryAll(env, targets).Success? <==> forall i :: 0 <= i < |targets| ==> QueryInfo(env, targets[i]).Success?
    ensures QueryAll(env, targets).Success? ==> (var infos := QueryAll(env, targets).value;
      |infos| == |targets| && forall i :: 0 <= i < |targets| ==> infos[i] == QueryInfo(env, targets[i]).value)
    ensures QueryAll(env, targets).Failure? ==> exists k :: (0 <= k < |targets| &&
      (forall i :: 0 <= i < k ==> QueryInfo(env, targets[i]).Success?) &&
      QueryInfo(env, targets[k]).Failure? && QueryAll(env, targets).error == QueryInfo(env, targets[k]).error)
  {
    if targets != [] {
      QueryAllInOrder(env, targets[1..]);
      var q := QueryInfo(env, targets[0]);
      if q.Success? {
        var r := QueryAll(env, targets[1..]);
        if r.Failure? {
          var k :| 0 <= k < |targets[1..]| && (forall i :: 0 <= i < k ==> QueryInfo(env, targets[1..][i]).Success?)
                   && QueryInfo(env, targets[1..][k]).Failure? && r.error == QueryInfo(env, targets[1..][k]).error;
          assert forall i :: 0 <= i < k + 1 ==> QueryInfo(env, targets[i]).Success? by {
            forall i | 0 <= i < k + 1 ensures QueryInfo(env, targets[i]).Success? {
              if i > 0 { assert targets[i] == targets[1..][i - 1]; }
            }
          }
          assert targets[k + 1] == targets[1..][k];
        } else {
          forall i | 0 <= i < |targets| ensures QueryInfo(env, targets[i]).Success? {
            if i > 0 { assert targets[i] == targets[1..][i - 1]; }
          }
        }
      }
    }
  }

  /** Lines `ls` joined, each followed by a newline. */
  function Terminated(ls: seq<string>): string {
    if ls == [] then "" else ls[0] + "\n" + Terminated(ls[1..])
  }

  /** The name-version arguments expected from the lines: each non-blank line trimmed, with
      every space turned into `@`. */
  function Expected(ls: seq<string>): seq<string> {
    if ls == [] then []
    else (if TrimSpace(ls[0]) == "" then [] else [Replace(TrimSpace(ls[0]), ' ', '@')]) + Expected(ls[1..])
  }

  /** The first newline of `line + "\n" + rest` ends `line` when `line` has none. */
  lemma ReadLine(line: string, rest: string)
    requires '\n' !in line
    ensures ReadString(line + "\n" + rest) == ReadResult(line + "\n", rest, false)
  {
    var buf := line + "\n" + rest;
    assert buf[|line|] == '\n';
    assert buf[..|line|] == line && buf[..|line| + 1] == line + "\n" && buf[|line| + 1..] == rest;
  }

  /** The name-version argument of a line is its trimmed text with spaces turned into `@`,
      and it is blank exactly when the line is. */
  lemma NameVersionOfLine(line: string)
    ensures NameVersion(line + "\n") == Replace(TrimSpace(line), ' ', '@')
    ensures TrimSpace(NameVersion(line + "\n")) == "" <==> TrimSpace(line) == ""
  {
    TrimSpaceAppendSpace(line, '\n');
    assert line + "\n" == line + ['\n'];
    var t := TrimSpace(line);
    JoinSplitIsReplace(t, ' ', '@');
    var nv := Replace(t, ' ', '@');
    if t != [] {
      assert nv[0] == (if t[0] == ' ' then '@' else t[0]);
      assert TrimLeftSpace(nv) == nv;
    }
  }

  /** The unread lines that follow the skipped one give the expected arguments; the unterminated
      `tail` is dropped. */
  lemma {:induction false} TargetsOfLines(ls: seq<string>, tail: string)
    requires forall k :: 0 <= k < |ls| ==> '\n' !in ls[k]
    requires '\n' !in tail
    ensures Targets(CompleteLines(Terminated(ls) + tail)) == Expected(ls)
  {
    if ls == [] {
      assert Terminated(ls) + tail == tail;
      assert ReadString(tail).eof;
    } else {
      var rest := Terminated(ls[1..]) + tail;
      assert Terminated(ls) + tail == ls[0] + "\n" + rest;
      TargetsOfLines(ls[1..], tail);
      TargetsOfLine(ls[0], rest);
    }
  }

  /** A complete first line contributes its expected argument, then come the other lines. */
  lemma TargetsOfLine(line: string, rest: string)
    requires '\n' !in line
    ensures Targets(CompleteLines(line + "\n" + rest))
         == (if TrimSpace(line) == "" then [] else [Replace(TrimSpace(line), ' ', '@')]) + Targets(CompleteLines(rest))
  {
    ReadLine(line, rest);
    var lines := CompleteLines(rest);
    assert CompleteLines(line + "\n" + rest) == [line + "\n"] + lines;
    assert ([line + "\n"] + lines)[0] == line + "\n" && ([line + "\n"] + lines)[1..] == lines;
    NameVersionOfLine(line);
  }

  /** `listAll` on the output `header`, the lines `ls` and an unterminated `tail`: the header line
      is skipped, the tail is dropped, and the modules are queried line by line. */
  lemma ListAllLines(env: GoEnv, header: string, ls: seq<string>, tail: string)
    requires '\n' !in header && '\n' !in tail
    requires forall k :: 0 <= k < |ls| ==> '\n' !in ls[k]
    requires env.run(["go", "list", "-m", "all"]) == Success(header + "\n" + Terminated(ls) + tail)
    ensures ListAllOf(env) == QueryAll(env, Expected(ls))
  {
    var rest := Terminated(ls) + tail;
    assert header + "\n" + Terminated(ls) + tail == header + "\n" + rest;
    HeaderSkipped(env, header, rest);
    TargetsOfLines(ls, tail);
  }

  /** The first line of the output is read and discarded. */
  lemma HeaderSkipped(env: GoEnv, header: string, rest: string)
    requires '\n' !in header
    requires env.run(["go", "list", "-m", "all"]) == Success(header + "\n" + rest)
    ensures ListAllOf(env) == QueryAll(env, Targets(CompleteLines(rest)))
  {
    ReadLine(header, rest);
  }

  /** One step of the reading loop: the first complete line contributes its argument unless
      it is blank. */
  lemma LinesStep(buf: string)
    requires !ReadString(buf).eof
    ensures var r := ReadString(buf); var nv := NameVersion(r.line);
      Targets(CompleteLines(buf)) == (if |TrimSpace(nv)| == 0 then [] else [nv]) + Targets(CompleteLines(r.rest))
  {
    var r := ReadString(buf);
    assert CompleteLines(buf) == [r.line] + CompleteLines(r.rest);
    assert ([r.line] + CompleteLines(r.rest))[1..] == CompleteLines(r.rest);
  }

  /** Nothing collected leaves the outcome alone. */
  lemma PrependNothing(r: Result<seq<GoModuleInfo>, ListError>)
    ensures Prepend([], r) == r
  {
    if r.Success? {
      assert [] + r.value == r.value;
    }
  }

  /** One step of the query loop: a successful query moves its result to the collected ones. */
  lemma QueryStep(env: GoEnv, mods: seq<GoModuleInfo>, target: string, targets: seq<string>)
    requires QueryInfo(env, target).Success?
    ensures Prepend(mods, QueryAll(env, [target] + targets))
         == Prepend(mods + [QueryInfo(env, target).value], QueryAll(env, targets))
  {
    assert ([target] + targets)[1..] == targets;
    match QueryAll(env, targets) {
      case Success(v) =>
        assert mods + ([QueryInfo(env, target).value] + v) == (mods + [QueryInfo(env, target).value]) + v;
      case Failure(_) =>
    }
  }

  /** A module to inspect; `Init` (not part of this model) sets `initialised`. */
  class Module {
    var name: string
    var version: string
    var initialised: bool

    constructor (name: string, version: string, initialised: bool)
      ensures this.name == name && this.version == version && this.initialised == initialised
    {
      this.name := name;
      this.version := version;
      this.initialised := initialised;
    }

    /** `list`: the argument vector is built in place, its last argument extended by the version. */
    method List(env: GoEnv) returns (r: Result<GoModuleInfo, ListError>)
      ensures !initialised ==> r == Failure(ErrModuleNotInitialised)
      ensures initialised ==> r == QueryInfo(env, Target(name, version))
    {
      if !initialised {
        return Failure(ErrModuleNotInitialised);
      }
      var args := new string[5];
      args[0], args[1], args[2], args[3], args[4] := "go", "list", "-m", "-json", name;
      if |version| > 0 {
        args[4] := args[4] + "@" + version;
      }
      assert args[..] == ["go", "list", "-m", "-json", Target(name, version)];
      var out := env.run(args[..]);
      if out.Failure? {
        return Failure(Err(out.error));
      }
      var info := env.decode(out.value);
      if info.Failure? {
        return Failure(Err(info.error));
      }
      return Success(info.value);
    }

    /** `listAll`: consume the output line by line after skipping the first one. */
    method ListAll(env: GoEnv) returns (r: Result<seq<GoModuleInfo>, ListError>)
      ensures !initialised ==> r == Failure(ErrModuleNotInitialised)
      ensures initialised ==> r == ListAllOf(env)
    {
      if !initialised {
        return Failure(ErrModuleNotInitialised);
      }
      var out := env.run(["go", "list", "-m", "all"]);
      if out.Failure? {
        return Failure(Err(out.error));
      }
      var buf := ReadString(out.value).rest;
      var allMods: seq<GoModuleInfo> := [];
      assert ListAllOf(env) == QueryAll(env, Targets(CompleteLines(buf)));
      PrependNothing(QueryAll(env, Targets(CompleteLines(buf))));
      while true
        invariant ListAllOf(env) == Prepend(allMods, QueryAll(env, Targets(CompleteLines(buf))))
        decreases |buf|
      {
        var read := ReadString(buf);
        if read.eof {
          break;
        }
        var line := read.line;
        ghost var later := Targets(CompleteLines(read.rest));
        LinesStep(buf);
        buf := read.rest;
        var nameVersion := Join(Split(TrimSpace(line), ' '), '@');
        assert nameVersion == NameVersion(line);
        if |TrimSpace(nameVersion)| == 0 {
          assert [] + later == later;
          continue;
        }
        var modInfo := QueryInfo(env, nameVersion);
        if modInfo.Failure? {
          return Failure(modInfo.error);
        }
        QueryStep(env, allMods, nameVersion, later);
        allMods := allMods + [modInfo.value];
      }
      assert allMods + [] == allMods;
      return Success(allMods);
    }
  }
}
