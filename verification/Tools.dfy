/**
  The simulated tools: every one of them is a function of the workspace and the arguments. Three read or
  change files; what the other four answer is an arbitrary function of the files and the arguments.
 */
module Tools {
  import opened Text
  import opened StepReferences
  import opened RunRecords

  const TOOLS := {"read_file", "write_file", "apply_patch", "run_tests", "web_fetch", "shell", "summarize"}

  /** A tool call as a function: its result and the files afterwards. */
  datatype Call = Call(result: ToolResult, files: Files)

  /** A path argument that is no text is never a file; a list or dictionary cannot even be looked up. */
  function NoSuchFile(w: Foreign, path: Value): ToolResult {
    if path.Arr? || path.Obj? then ToolCrash
    else ToolError("file not found: " + if path.Str? then path.s else w.show(path))
  }

  function ReadFile(w: Foreign, files: Files, args: Args): ToolResult {
    match Lookup(args, "path")
    case None => ToolCrash
    case Some(Str(path)) => if path in files then Output(files[path]) else NoSuchFile(w, Str(path))
    case Some(other) => NoSuchFile(w, other)
  }

  predicate HasTexts(args: Args) {
    && Lookup(args, "path").Some? && Lookup(args, "path").value.Str?
    && Lookup(args, "content").Some? && Lookup(args, "content").value.Str?
  }

  /** A write that is given both its arguments, but not as texts. */
  predicate WritesNonText(tool: string, args: Args) {
    tool == "write_file" && Lookup(args, "path").Some? && Lookup(args, "content").Some? && !HasTexts(args)
  }

  /** Path and content must both be texts: with anything else the call, or the bookkeeping of the
      runtime right after it, raises. */
  function WriteFile(files: Files, args: Args): Call {
    match (Lookup(args, "path"), Lookup(args, "content"))
    case (Some(Str(path)), Some(Str(content))) =>
      Call(Output("wrote " + NatToString(|content|) + " chars to " + path), files[path := content])
    case _ => Call(ToolCrash, files)
  }

  function ReplaceFirst(s: string, find: string, replace: string): string {
    match Find(s, find, 0)
    case None => s
    case Some(i) => s[..i] + replace + s[i + |find|..]
  }

  function ApplyPatch(w: Foreign, files: Files, args: Args): Call {
    match (Lookup(args, "path"), Lookup(args, "find"), Lookup(args, "replace"))
    case (Some(path), Some(find), Some(replace)) =>
      if !path.Str? || path.s !in files then Call(NoSuchFile(w, path), files)
      else if !find.Str? then Call(ToolCrash, files)
      else if Find(files[path.s], find.s, 0).None? then Call(ToolError("pattern not found in " + path.s), files)
      else if !replace.Str? then Call(ToolCrash, files)
      else
        Call(Output("patched " + path.s + ": 1 occurrence replaced"),
             files[path.s := ReplaceFirst(files[path.s], find.s, replace.s)])
    case _ => Call(ToolCrash, files)
  }

  function CallTool(w: Foreign, tool: string, files: Files, args: Args): Call {
    if tool == "read_file" then Call(ReadFile(w, files, args), files)
    else if tool == "write_file" then WriteFile(files, args)
    else if tool == "apply_patch" then ApplyPatch(w, files, args)
    else Call(w.simulate(tool, files, args), files)
  }

  /** `after` is `before` with the file `path` holding `text`, and nothing else changed. */
  predicate OnlyFile(before: Files, after: Files, path: string, text: string) {
    path in after && after[path] == text && after - {path} == before - {path}
  }

  /** Reading gives the text of the file, of a missing one an error, and without a path an exception. */
  lemma ReadEffect(w: Foreign, files: Files, args: Args, path: string)
    ensures Lookup(args, "path") == Some(Str(path)) && path in files ==>
              CallTool(w, "read_file", files, args) == Call(Output(files[path]), files)
    ensures Lookup(args, "path") == Some(Str(path)) && path !in files ==>
              CallTool(w, "read_file", files, args) == Call(ToolError("file not found: " + path), files)
    ensures Lookup(args, "path") == None ==> CallTool(w, "read_file", files, args) == Call(ToolCrash, files)
  {
    hide Lookup;
  }

  /** A successful write leaves exactly the given content in the file it names; every write of a text to a
      path succeeds. */
  lemma WriteEffect(files: Files, args: Args)
    ensures WriteFile(files, args).result.Output? <==> HasTexts(args)
    ensures var call := WriteFile(files, args);
            if call.result.Output? then
              exists path, content ::
                && Lookup(args, "path") == Some(Str(path)) && Lookup(args, "content") == Some(Str(content))
                && OnlyFile(files, call.files, path, content)
            else call.files == files
  {
    var path, content := Lookup(args, "path"), Lookup(args, "content");
    if path.Some? && path.value.Str? && content.Some? && content.value.Str? {
      assert OnlyFile(files, files[path.value.s := content.value.s], path.value.s, content.value.s);
    }
  }

  /** `find` occurs in `text` between `prefix` and `suffix`, and nowhere further to the left. */
  predicate LeftmostAt(text: string, find: string, prefix: string, suffix: string) {
    text == prefix + find + suffix && forall i :: 0 <= i < |prefix| ==> !OccursAt(text, find, i)
  }

  lemma ReplaceFirstReplacesLeftmost(text: string, find: string, replace: string)
    requires Find(text, find, 0).Some?
    ensures exists prefix, suffix ::
              LeftmostAt(text, find, prefix, suffix) && ReplaceFirst(text, find, replace) == prefix + replace + suffix
  {
    hide Find;
    var i := Find(text, find, 0).value;
    assert text == text[..i] + find + text[i + |find|..];
    assert LeftmostAt(text, find, text[..i], text[i + |find|..]);
  }

  lemma OnlyFileUpdated(files: Files, path: string, text: string)
    ensures OnlyFile(files, files[path := text], path, text)
  {
  }

  lemma PatchOutput(w: Foreign, files: Files, args: Args)
    ensures var call := ApplyPatch(w, files, args);
            var path, find, replace := Lookup(args, "path"), Lookup(args, "find"), Lookup(args, "replace");
            if call.result.Output? then
              && path.Some? && path.value.Str? && find.Some? && find.value.Str? && replace.Some? && replace.value.Str?
              && path.value.s in files && Find(files[path.value.s], find.value.s, 0).Some?
              && call.files == files[path.value.s := ReplaceFirst(files[path.value.s], find.value.s, replace.value.s)]
            else call.files == files
  {
    hide Lookup, Find, ReplaceFirst;
  }

  /** A successful patch replaces the leftmost occurrence of the searched text, once, in the file it names. */
  lemma PatchEffect(w: Foreign, files: Files, args: Args)
    ensures var call := ApplyPatch(w, files, args);
            if call.result.Output? then
              exists path, find, replace, prefix, suffix ::
                && Lookup(args, "path") == Some(Str(path)) && path in files
                && Lookup(args, "find") == Some(Str(find)) && Lookup(args, "replace") == Some(Str(replace))
                && LeftmostAt(files[path], find, prefix, suffix)
                && OnlyFile(files, call.files, path, prefix + replace + suffix)
            else call.files == files
  {
    hide ApplyPatch, Lookup, Find, ReplaceFirst, LeftmostAt, OnlyFile;
    PatchOutput(w, files, args);
    if ApplyPatch(w, files, args).result.Output? {
      var path, find, replace :=
        Lookup(args, "path").value.s, Lookup(args, "find").value.s, Lookup(args, "replace").value.s;
      ReplaceFirstReplacesLeftmost(files[path], find, replace);
      var prefix, suffix :| LeftmostAt(files[path], find, prefix, suffix)
                            && ReplaceFirst(files[path], find, replace) == prefix + replace + suffix;
      OnlyFileUpdated(files, path, prefix + replace + suffix);
    }
  }

  /** A patch of a text by texts fails exactly when the file is missing or holds no occurrence. */
  lemma PatchFailsIff(w: Foreign, files: Files, args: Args, path: string, find: string, replace: string)
    requires Lookup(args, "path") == Some(Str(path))
    requires Lookup(args, "find") == Some(Str(find)) && Lookup(args, "replace") == Some(Str(replace))
    ensures var call := ApplyPatch(w, files, args);
            if path !in files then call.result == ToolError("file not found: " + path)
            else if exists i :: 0 <= i <= |files[path]| && OccursAt(files[path], find, i) then call.result.Output?
            else call.result == ToolError("pattern not found in " + path)
  {
    hide Lookup, ReplaceFirst;
  }

  /** Only a successful write or patch changes the files. */
  lemma OtherCallsKeepFiles(w: Foreign, tool: string, files: Files, args: Args)
    ensures var call := CallTool(w, tool, files, args);
            !call.result.Output? || (tool != "write_file" && tool != "apply_patch") ==> call.files == files
  {
    hide Lookup, Find, ReplaceFirst, NatToString;
  }

  /** A write that succeeds was given two texts. */
  lemma WriteNeedsTexts(w: Foreign, files: Files, args: Args)
    requires CallTool(w, "write_file", files, args).result.Output?
    ensures HasTexts(args)
  {
    hide Lookup, NatToString;
  }

  /** The in-memory file tree that the tools of one run share and update. */
  class Workspace {
    var files: Files

    constructor (files: Files)
      ensures this.files == files
    {
      this.files := files;
    }

    method ReadText(w: Foreign, args: Args) returns (result: ToolResult)
      ensures result == ReadFile(w, files, args)
    {
      var path := Lookup(args, "path");
      if path.None? {
        return ToolCrash;
      }
      if !path.value.Str? || path.value.s !in files {
        return NoSuchFile(w, path.value);
      }
      return Output(files[path.value.s]);
    }

    method WriteText(args: Args) returns (result: ToolResult)
      modifies this
      ensures Call(result, files) == WriteFile(old(files), args)
    {
      var content, path := Lookup(args, "content"), Lookup(args, "path");
      if content.None? || path.None? || !content.value.Str? || !path.value.Str? {
        return ToolCrash;
      }
      files := files[path.value.s := content.value.s];
      return Output("wrote " + NatToString(|content.value.s|) + " chars to " + path.value.s);
    }

    method Patch(w: Foreign, args: Args) returns (result: ToolResult)
      modifies this
      ensures Call(result, files) == ApplyPatch(w, old(files), args)
    {
      var path, find, replace := Lookup(args, "path"), Lookup(args, "find"), Lookup(args, "replace");
      if path.None? || find.None? || replace.None? {
        return ToolCrash;
      }
      if !path.value.Str? || path.value.s !in files {
        return NoSuchFile(w, path.value);
      }
      if !find.value.Str? {
        return ToolCrash;
      }
      var text := files[path.value.s];
      if Find(text, find.value.s, 0).None? {
        return ToolError("pattern not found in " + path.value.s);
      }
      if !replace.value.Str? {
        return ToolCrash;
      }
      files := files[path.value.s := ReplaceFirst(text, find.value.s, replace.value.s)];
      return Output("patched " + path.value.s + ": 1 occurrence replaced");
    }

    method Run(w: Foreign, tool: string, args: Args) returns (result: ToolResult)
      modifies this
      ensures Call(result, files) == CallTool(w, tool, old(files), args)
    {
      match tool {
        case "read_file" => result := ReadText(w, args);
        case "write_file" => result := WriteText(args);
        case "apply_patch" => result := Patch(w, args);
        case _ => result := w.simulate(tool, files, args);
      }
    }
  }
}
