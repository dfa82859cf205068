/** The `text_edit` tool of internal/text_edit.go: up-front validation of
    the arguments, then one of create, insert or str_replace applied to
    each path in order, with one result per path. The file system is a map
    from path to contents plus the set of directories; the regex engine is
    a compile outcome and a `Matcher`; OS write and read failures are given
    per path. */
module TextEdit {
  import opened Results
  import opened OutputBuffers
  import opened Lines
  import opened Replace

  type Path = string

  // ---------------------------------------------------------------------
  // Commands and validation

  datatype Command = Create | Insert | StrReplace

  /** `unicode.ToLower` on the runes whose lower case is ASCII: the ASCII
      upper-case letters, U+0130 (capital I with dot) and U+212A (Kelvin
      sign). Every other rune is kept, which cannot change a comparison
      with an ASCII command name. */
  function LowerRune(c: char): (l: char)
    ensures 'A' <= c <= 'Z' ==> l as int == c as int + 32
    ensures l != c ==> ('A' <= c <= 'Z' || c == 'İ' || c == 'K')
  {
    if 'A' <= c <= 'Z' then (c as int + 32) as char
    else if c == 'İ' then 'i'
    else if c == 'K' then 'k'
    else c
  }

  /** `strings.ToLower`. */
  function Lower(s: string): (l: string)
    ensures |l| == |s|
    ensures forall i :: 0 <= i < |s| ==> l[i] == LowerRune(s[i])
  {
    seq(|s|, i requires 0 <= i < |s| => LowerRune(s[i]))
  }

  /** The command a name denotes, in any case. */
  function ParseCommand(name: string): (c: Option<Command>)
    ensures c == Some(Create) <==> Lower(name) == "create"
    ensures c == Some(Insert) <==> Lower(name) == "insert"
    ensures c == Some(StrReplace) <==> Lower(name) == "str_replace"
  {
    var l := Lower(name);
    if l == "str_replace" then Some(StrReplace)
    else if l == "insert" then Some(Insert)
    else if l == "create" then Some(Create)
    else None
  }

  /** `TextEditArgs`. */
  datatype EditArgs = EditArgs(command: string, paths: seq<Path>, oldText: string,
                               replaceAll: bool, insertAfter: int, text: seq<byte>)

  /** Which optional arguments each command accepts, and that a
      str_replace pattern compiles. */
  predicate FlagsAllowed(c: Command, args: EditArgs, compileError: Option<string>) {
    match c
    case StrReplace => args.oldText != "" && args.insertAfter <= 0 && compileError.None?
    case Insert => !args.replaceAll && args.oldText == ""
    case Create => !args.replaceAll && args.insertAfter <= 0 && args.oldText == ""
  }

  /** The checks made before any path is touched. `compileError` is what
      compiling `oldText` as a regular expression reports. */
  function Validate(args: EditArgs, compileError: Option<string>): (r: Result<Command, string>)
    ensures args.command == "" ==> r == Err("command cannot be empty")
    ensures args.command != "" && args.paths == [] ==> r == Err("paths is required")
    ensures args.command != "" && args.paths != [] && args.text == [] ==> r == Err("text is required")
    ensures args.command != "" && args.paths != [] && args.text != [] && ParseCommand(args.command).None? ==>
      r == Err("invalid command: " + args.command)
    // validation passes exactly when the command is known and its flags are allowed
    ensures r.Ok? <==>
      && args.command != "" && args.paths != [] && args.text != []
      && ParseCommand(args.command).Some?
      && FlagsAllowed(ParseCommand(args.command).value, args, compileError)
    ensures r.Ok? ==> r.value == ParseCommand(args.command).value
    ensures (&& args.command != "" && args.paths != [] && args.text != [] && args.replaceAll
             && ParseCommand(args.command) in {Some(Insert), Some(Create)}) ==>
      r == Err("replace_all is only valid for command 'str_replace'")
    ensures (&& args.command != "" && args.paths != [] && args.text != [] && args.oldText == ""
             && ParseCommand(args.command) == Some(StrReplace)) ==>
      r == Err("old_text is required for command 'str_replace'")
  {
    if args.command == "" then Err("command cannot be empty")
    else if args.paths == [] then Err("paths is required")
    else if args.text == [] then Err("text is required")
    else
      match ParseCommand(args.command)
      case Some(StrReplace) =>
        if args.oldText == "" then Err("old_text is required for command 'str_replace'")
        else if args.insertAfter > 0 then Err("insert_after is only valid for command 'insert'")
        else if compileError.Some? then Err("invalid regex: " + compileError.value)
        else Ok(StrReplace)
      case Some(Insert) =>
        if args.replaceAll then Err("replace_all is only valid for command 'str_replace'")
        else if args.oldText != "" then Err("old_text is only valid for command 'str_replace'")
        else Ok(Insert)
      case Some(Create) =>
        if args.replaceAll then Err("replace_all is only valid for command 'str_replace'")
        else if args.insertAfter > 0 then Err("insert_after is only valid for command 'insert'")
        else if args.oldText != "" then Err("old_text is only valid for command 'str_replace'")
        else Ok(Create)
      case None => Err("invalid command: " + args.command)
  }

  lemma LowerKeepsEmpty(s: string)
    ensures Lower(s) == "" <==> s == ""
  {
  }

  /** The command is matched without regard to case: two spellings that
      lower-case alike are accepted alike, for the same command. */
  lemma ValidateIgnoresCase(args: EditArgs, command: string, compileError: Option<string>)
    requires Lower(command) == Lower(args.command)
    ensures Validate(args.(command := command), compileError).Ok? <==> Validate(args, compileError).Ok?
    ensures Validate(args, compileError).Ok? ==>
      Validate(args.(command := command), compileError) == Validate(args, compileError)
  {
    LowerKeepsEmpty(command);
    LowerKeepsEmpty(args.command);
  }

  // ---------------------------------------------------------------------
  // The file system

  /** Regular files with their contents, directories, and the OS errors that
      reading or writing given paths would report. */
  datatype FileSystem = FileSystem(files: map<Path, seq<byte>>, dirs: set<Path>,
                                   readErrors: map<Path, string>, writeErrors: map<Path, string>)
  {
    /** No path is both a file and a directory. */
    predicate Valid() { files.Keys !! dirs }
  }

  /** Everything but the files is left alone, and so is every file other
      than the ones in `touched`; no file disappears. */
  predicate OnlyTouches(fs: FileSystem, fs': FileSystem, touched: seq<Path>) {
    && fs'.dirs == fs.dirs && fs'.readErrors == fs.readErrors && fs'.writeErrors == fs.writeErrors
    && fs.files.Keys <= fs'.files.Keys
    && (forall q :: q in fs'.files && q !in touched ==> q in fs.files && fs'.files[q] == fs.files[q])
  }

  /** `os.WriteFile`: a directory cannot be written over; otherwise the
      write fails with the given OS error, if any, or sets the contents. */
  function WriteFile(fs: FileSystem, p: Path, content: seq<byte>): (r: Result<FileSystem, string>)
    ensures r.Ok? <==> p !in fs.dirs && p !in fs.writeErrors
    ensures r.Ok? ==> r.value.files == fs.files[p := content] && OnlyTouches(fs, r.value, [p])
    ensures p !in fs.dirs && p in fs.writeErrors ==> r == Err(fs.writeErrors[p])
  {
    if p in fs.dirs then Err("open " + p + ": is a directory")
    else if p in fs.writeErrors then Err(fs.writeErrors[p])
    else Ok(fs.(files := fs.files[p := content]))
  }

  function LastSlash(p: Path): (r: Option<nat>)
    ensures r.Some? ==> r.value < |p| && p[r.value] == '/' && '/' !in p[r.value + 1..]
    ensures r.None? ==> '/' !in p
    decreases |p|
  {
    if p == [] then None
    else if p[|p| - 1] == '/' then Some(|p| - 1)
    else
      var r := LastSlash(p[..|p| - 1]);
      assert p == p[..|p| - 1] + [p[|p| - 1]];
      r
  }

  function TrimTrailingSlashes(p: Path): (r: Path)
    ensures |r| <= |p| && r == p[..|r|]
    ensures r == [] || r[|r| - 1] != '/'
    ensures forall i :: |r| <= i < |p| ==> p[i] == '/'
    decreases |p|
  {
    if p != [] && p[|p| - 1] == '/' then TrimTrailingSlashes(p[..|p| - 1]) else p
  }

  /** `filepath.Dir` on a Unix path: everything before the last `/` with
      trailing slashes dropped, `/` for a top-level path and `.` when there
      is no slash. */
  function Dir(p: Path): (d: Path)
    ensures d != []
    ensures '/' !in p ==> d == "."
  {
    match LastSlash(p)
    case None => "."
    case Some(i) =>
      var d := TrimTrailingSlashes(p[..i + 1]);
      if d == [] then "/" else d
  }

  /** The parent of `dir/name` is `dir`, for a plain file name and a
      directory with no trailing slash. */
  lemma DirOfJoin(dir: Path, name: Path)
    requires dir != [] && dir[|dir| - 1] != '/'
    requires name != [] && '/' !in name
    ensures Dir(dir + "/" + name) == dir
  {
    var p := dir + "/" + name;
    var i := |dir|;
    assert p[i] == '/' && p[i + 1..] == name;
    assert forall k :: i < k < |p| ==> p[k] == name[k - i - 1];
    var j := LastSlash(p);
    assert p[i] in p;
    assert j.Some?;
    var v := j.value;
    assert v == i;
    assert p[..i + 1] == dir + "/";
    assert TrimTrailingSlashes(dir + "/") == dir by {
      assert (dir + "/")[..|dir|] == dir;
    }
  }

  // ---------------------------------------------------------------------
  // One path

  datatype Status = Created | Modified | Failed {
    /** The `status` string of the result. */
    function Label(): string {
      match this
      case Created => "created"
      case Modified => "modified"
      case Failed => "error"
    }
  }

  /** `TextEditFileResult`. */
  datatype FileResult = FileResult(path: Path, status: Status, replacements: nat, inserted: bool,
                                   bytesWritten: int, error: string)

  function Failure(p: Path, message: string): FileResult {
    FileResult(p, Failed, 0, false, 0, message)
  }

  const NoSuchPath := "file path does not exist"

  datatype PathStep = PathStep(fs: FileSystem, result: FileResult)

  /** Write `content` to `p` and report `ok`, or report the write error. */
  function Commit(fs: FileSystem, p: Path, content: seq<byte>, ok: FileResult): (r: PathStep)
    requires ok.status != Failed
    ensures r.result.status == Failed || r.result == ok
    ensures r.result.status != Failed <==> WriteFile(fs, p, content).Ok?
    ensures r.result.status != Failed ==> r.fs == WriteFile(fs, p, content).value
    ensures r.result.status == Failed ==> r.fs == fs && r.result == Failure(p, WriteFile(fs, p, content).error)
  {
    match WriteFile(fs, p, content)
    case Err(e) => PathStep(fs, Failure(p, e))
    case Ok(fs') => PathStep(fs', ok)
  }

  /** The contents `str_replace` writes: every match replaced when asked,
      else the single match spliced. */
  function Replaced(s: seq<byte>, ms: seq<Span>, text: seq<byte>, replaceAll: bool): (r: seq<byte>)
    requires ValidSpans(ms, 0, |s|) && |ms| > 0
    requires !replaceAll ==> |ms| == 1
    ensures r == ReplaceAll(s, ms, text)
    // one copy of the text per match, in place of the matched bytes
    ensures |r| - |s| == |ms| * |text| - Width(ms)
  {
    if replaceAll then ReplaceAll(s, ms, text)
    else
      ReplaceAllOne(s, ms[0], text);
      assert ms == [ms[0]];
      Splice(s, ms[0], text)
  }

  /** The work of one iteration of the path loop of `TextEditTool`. */
  function EditPath(fs: FileSystem, c: Command, args: EditArgs, p: Path, matcher: Matcher): (r: PathStep)
    requires fs.Valid()
    ensures r.result.path == p
    ensures r.fs.Valid() && OnlyTouches(fs, r.fs, [p])
    // a failed path writes nothing
    ensures r.result.status == Failed ==> r.fs == fs
    ensures r.result.status != Failed ==> p in r.fs.files && p !in fs.writeErrors
    // create: the parent must be a directory; the file then holds exactly the text
    ensures c == Create && Dir(p) !in fs.dirs ==> r.result == Failure(p, NoSuchPath)
    ensures c == Create ==>
      (r.result.status != Failed <==> Dir(p) in fs.dirs && p !in fs.dirs && p !in fs.writeErrors)
    ensures c == Create && r.result.status != Failed ==>
      && r.result == FileResult(p, Created, 0, false, |args.text|, "")
      && r.fs.files[p] == args.text
    // insert and str_replace need an existing regular file
    ensures c != Create && p !in fs.files ==> r.result == Failure(p, NoSuchPath)
    ensures c != Create && p in fs.files && p in fs.readErrors ==> r.result == Failure(p, fs.readErrors[p])
    // insert: the text lands just after the requested line
    ensures c == Insert ==>
      (r.result.status != Failed <==> p in fs.files && p !in fs.readErrors && p !in fs.writeErrors)
    ensures c == Insert && r.result.status != Failed ==>
      var before := fs.files[p];
      var k := InsertionPoint(before, args.insertAfter);
      && r.result == FileResult(p, Modified, 0, true, |args.text|, "")
      && r.fs.files[p] == before[..k] + args.text + before[k..]
    // str_replace: no match, or several without replace_all, is an error
    ensures c == StrReplace && p in fs.files && p !in fs.readErrors ==>
      var before := fs.files[p];
      var ms := matcher(before);
      && (ms == [] ==> r.result == Failure(p, "no matches found"))
      && (|ms| > 1 && !args.replaceAll ==> r.result == Failure(p, "multiple matches found with replace_all=false"))
      && (r.result.status != Failed <==> ms != [] && (args.replaceAll || |ms| == 1) && p !in fs.writeErrors)
      && (r.result.status != Failed ==>
            && r.result.status == Modified && !r.result.inserted
            && r.result.replacements == |ms|
            && r.fs.files[p] == ReplaceAll(before, ms, args.text)
            && r.result.bytesWritten == |ms| * |args.text| - Width(ms))
  {
    match c
    case Create =>
      if Dir(p) !in fs.dirs then PathStep(fs, Failure(p, NoSuchPath))
      else Commit(fs, p, args.text, FileResult(p, Created, 0, false, |args.text|, ""))
    case Insert =>
      if p !in fs.files then PathStep(fs, Failure(p, NoSuchPath))
      else if p in fs.readErrors then PathStep(fs, Failure(p, fs.readErrors[p]))
      else
        var content := InsertAfterLine(fs.files[p], args.insertAfter, args.text);
        Commit(fs, p, content, FileResult(p, Modified, 0, true, |args.text|, ""))
    case StrReplace =>
      if p !in fs.files then PathStep(fs, Failure(p, NoSuchPath))
      else if p in fs.readErrors then PathStep(fs, Failure(p, fs.readErrors[p]))
      else
        var s := fs.files[p];
        var ms := matcher(s);
        if |ms| == 0 then PathStep(fs, Failure(p, "no matches found"))
        else if !args.replaceAll && |ms| > 1 then
          PathStep(fs, Failure(p, "multiple matches found with replace_all=false"))
        else
          var content := Replaced(s, ms, args.text, args.replaceAll);
          var replacements := if args.replaceAll then |ms| else 1;
          Commit(fs, p, content, FileResult(p, Modified, replacements, false, |content| - |s|, ""))
  }

  // ---------------------------------------------------------------------
  // All paths

  /** The path loop of `TextEditTool`: each path in order, each seeing the
      files as the earlier paths left them. */
  function EditAll(fs: FileSystem, c: Command, args: EditArgs, paths: seq<Path>, matcher: Matcher): (r: (FileSystem, seq<FileResult>))
    requires fs.Valid()
    ensures r.0.Valid()
    // exactly one result per path, in path order
    ensures |r.1| == |paths|
    ensures forall i :: 0 <= i < |paths| ==> r.1[i].path == paths[i]
    // only the listed paths are written
    ensures OnlyTouches(fs, r.0, paths)
    decreases |paths|
  {
    if paths == [] then (fs, [])
    else
      var step := EditPath(fs, c, args, paths[0], matcher);
      var rest := EditAll(step.fs, c, args, paths[1..], matcher);
      var results := [step.result] + rest.1;
      (rest.0, results)
  }

  /** When every path fails, nothing is written. */
  lemma {:induction false} AllFailedWritesNothing(fs: FileSystem, c: Command, args: EditArgs, paths: seq<Path>, matcher: Matcher)
    requires fs.Valid()
    ensures var r := EditAll(fs, c, args, paths, matcher);
      (forall i :: 0 <= i < |r.1| ==> r.1[i].status == Failed) ==> r.0 == fs
    decreases |paths|
  {
    if paths != [] {
      var step := EditPath(fs, c, args, paths[0], matcher);
      var rest := EditAll(step.fs, c, args, paths[1..], matcher);
      var r := EditAll(fs, c, args, paths, matcher);
      assert r == (rest.0, [step.result] + rest.1);
      if forall i :: 0 <= i < |r.1| ==> r.1[i].status == Failed {
        assert r.1[0] == step.result;
        AllFailedWritesNothing(step.fs, c, args, paths[1..], matcher);
        assert forall i :: 0 <= i < |rest.1| ==> rest.1[i] == r.1[i + 1];
      }
    }
  }

  /** A path edited successfully is a file when the loop ends: later paths
      never remove it. */
  lemma {:induction false} EditedPathsExist(fs: FileSystem, c: Command, args: EditArgs, paths: seq<Path>, matcher: Matcher)
    requires fs.Valid()
    ensures var r := EditAll(fs, c, args, paths, matcher);
      forall i :: 0 <= i < |r.1| && r.1[i].status != Failed ==> paths[i] in r.0.files
    decreases |paths|
  {
    if paths != [] {
      var step := EditPath(fs, c, args, paths[0], matcher);
      var rest := EditAll(step.fs, c, args, paths[1..], matcher);
      var r := EditAll(fs, c, args, paths, matcher);
      assert r == (rest.0, [step.result] + rest.1);
      EditedPathsExist(step.fs, c, args, paths[1..], matcher);
      forall i | 0 <= i < |r.1| && r.1[i].status != Failed
        ensures paths[i] in r.0.files
      {
        if i > 0 {
          assert r.1[i] == rest.1[i - 1] && paths[i] == paths[1..][i - 1];
        }
      }
    }
  }

  /** `anyError`. */
  function AnyError(results: seq<FileResult>): (b: bool)
    ensures b <==> exists i :: 0 <= i < |results| && results[i].status == Failed
    decreases |results|
  {
    if results == [] then false
    else if results[0].status == Failed then true
    else
      var b := AnyError(results[1..]);
      assert forall i :: 1 <= i < |results| ==> results[i] == results[1..][i - 1];
      b
  }

  // ---------------------------------------------------------------------
  // The tool

  /** An error result before any path is touched, or the per-path results
      and whether any of them is an error. */
  datatype Reply = Refused(message: string) | Edited(results: seq<FileResult>, isError: bool)

  /** `TextEditTool`. */
  function TextEditTool(fs: FileSystem, args: EditArgs, compileError: Option<string>, matcher: Matcher): (r: (FileSystem, Reply))
    requires fs.Valid()
    ensures r.0.Valid()
    ensures Validate(args, compileError).Err? ==> r == (fs, Refused(Validate(args, compileError).error))
    ensures Validate(args, compileError).Ok? ==> r.1.Edited?
    ensures r.1.Edited? ==>
      && |r.1.results| == |args.paths|
      && (forall i :: 0 <= i < |args.paths| ==> r.1.results[i].path == args.paths[i])
      && (r.1.isError <==> exists i :: 0 <= i < |r.1.results| && r.1.results[i].status == Failed)
    ensures OnlyTouches(fs, r.0, args.paths)
  {
    match Validate(args, compileError)
    case Err(msg) => (fs, Refused(msg))
    case Ok(c) =>
      var (fs', results) := EditAll(fs, c, args, args.paths, matcher);
      (fs', Edited(results, AnyError(results)))
  }

  /** The test of an insert combined with replace_all: refused before any
      file is looked at, however the command is spelt. */
  lemma InsertWithReplaceAllRefused(fs: FileSystem, command: string, paths: seq<Path>, text: seq<byte>, matcher: Matcher)
    requires fs.Valid() && paths != [] && text != []
    requires Lower(command) == "insert"
    ensures TextEditTool(fs, EditArgs(command, paths, "", true, 0, text), None, matcher)
         == (fs, Refused("replace_all is only valid for command 'str_replace'"))
  {
    LowerKeepsEmpty(command);
  }

  /** The test of an unknown command ("nope"; "view" and "delete" are
      refused the same way): any name that is no command in any case. */
  lemma UnknownCommandRefused(fs: FileSystem, command: string, paths: seq<Path>, text: seq<byte>, matcher: Matcher)
    requires fs.Valid() && paths != [] && text != []
    requires command != "" && ParseCommand(command).None?
    ensures TextEditTool(fs, EditArgs(command, paths, "", false, 0, text), None, matcher)
         == (fs, Refused("invalid command: " + command))
  {
  }
}
