/**
 * `create_project_structure` of the chat-export converter
 * (helper_scripts/general_shell_Scripts/convert_qwen_json_to_raw_project_structure.py):
 * every found file whose normalised path is relative and free of ".." is
 * written under the output directory, shell scripts made executable; the
 * others are skipped. `os.path.normpath` is taken as a parameter that
 * returns the normalised path already taken apart.
 */
module ExportTree {
  import opened Wrappers
  import opened PyDict

  /** A path as `os.path.normpath` returns it: absolute or not, and its components. */
  datatype NormPath = NormPath(absolute: bool, parts: seq<string>)

  /**
   * The shapes `normpath` produces: no empty or "." component and no '/'
   * inside one, ".." only in a leading run of a relative path.
   */
  predicate NormalForm(n: NormPath)
  {
    && (forall i :: 0 <= i < |n.parts| ==> n.parts[i] != "" && n.parts[i] != "." && '/' !in n.parts[i])
    && (forall i :: 0 < i < |n.parts| && n.parts[i] == ".." ==> n.parts[i - 1] == "..")
    && (n.absolute ==> ".." !in n.parts)
  }

  /** The filter: a path that is absolute, or has a ".." component, is skipped. */
  predicate IsSafe(n: NormPath)
  {
    !n.absolute && ".." !in n.parts
  }

  /** Lexical resolution of `parts` from the directory `dir`: ".." climbs one level and "." stays. */
  function Resolve(dir: seq<string>, parts: seq<string>): seq<string>
    decreases |parts|
  {
    if parts == [] then dir
    else
      var next :=
        if parts[0] == ".." then (if dir == [] then [] else dir[..|dir| - 1])
        else if parts[0] == "." then dir
        else dir + [parts[0]];
      Resolve(next, parts[1..])
  }

  /**
   * A path the filter lets through resolves to a place inside the directory
   * it is joined to. The resolution is lexical: a symbolic link below the
   * directory can still lead the write outside it.
   */
  lemma {:induction false} SafeStaysInside(dir: seq<string>, n: NormPath)
    requires NormalForm(n) && IsSafe(n)
    ensures Resolve(dir, n.parts) == dir + n.parts
    decreases |n.parts|
  {
    if n.parts != [] {
      var rest := NormPath(false, n.parts[1..]);
      assert n.parts[0] in n.parts;
      SafeStaysInside(dir + [n.parts[0]], rest);
      assert dir + [n.parts[0]] + n.parts[1..] == dir + n.parts;
    }
  }

  /** A file on disk: its text and its permission bits. */
  datatype Entry = Entry(text: string, mode: nat)

  /** Files by their full component path. */
  type Disk = map<seq<string>, Entry>

  /** 0o755, `S_IRWXU | S_IRGRP | S_IXGRP | S_IROTH | S_IXOTH`. */
  const ExecMode: nat := 0x1ED

  predicate EndsWith(s: string, suffix: string)
  {
    |suffix| <= |s| && s[|s| - |suffix|..] == suffix
  }

  /**
   * The file a path is written to, if it is written: an unsafe path is
   * skipped, and a path that normalises to "." names the output directory
   * itself. The output directory is taken to exist as a directory, so that
   * write raises an `IOError` the loop catches.
   */
  function Target(out: seq<string>, n: NormPath): Option<seq<string>>
  {
    if IsSafe(n) && n.parts != [] then Some(out + n.parts) else None
  }

  /**
   * One iteration: write `content + '\n'` to the target; a path ending in
   * ".sh" is then made 0o755, and otherwise an existing file keeps its mode
   * and a new one gets `newMode`.
   */
  function WriteFile(disk: Disk, out: seq<string>, normpath: string -> NormPath, newMode: nat,
                     filePath: string, content: string): Disk
  {
    match Target(out, normpath(filePath))
    case None => disk
    case Some(t) =>
      var mode := if EndsWith(filePath, ".sh") then ExecMode else if t in disk then disk[t].mode else newMode;
      disk[t := Entry(content + "\n", mode)]
  }

  /** `create_project_structure(output_dir, files_to_create)`, item by item. */
  function CreateProjectStructure(disk: Disk, out: seq<string>, normpath: string -> NormPath, newMode: nat,
                                  files: Dict<string, string>): Disk
  {
    if files == [] then disk
    else
      var last := files[|files| - 1];
      WriteFile(CreateProjectStructure(disk, out, normpath, newMode, files[..|files| - 1]),
                out, normpath, newMode, last.0, last.1)
  }

  /** The loop of `create_project_structure`. */
  method CreateFiles(disk: Disk, out: seq<string>, normpath: string -> NormPath, newMode: nat,
                     files: Dict<string, string>) returns (result: Disk)
    ensures result == CreateProjectStructure(disk, out, normpath, newMode, files)
  {
    result := disk;
    for i := 0 to |files|
      invariant result == CreateProjectStructure(disk, out, normpath, newMode, files[..i])
    {
      assert files[..i + 1][..i] == files[..i];
      var (filePath, content) := files[i];
      var safe := normpath(filePath);
      if safe.absolute || ".." in safe.parts {
        continue;
      }
      if safe.parts == [] {
        continue;
      }
      var fullPath := out + safe.parts;
      var mode := if fullPath in result then result[fullPath].mode else newMode;
      result := result[fullPath := Entry(content + "\n", mode)];
      if EndsWith(filePath, ".sh") {
        result := result[fullPath := Entry(result[fullPath].text, ExecMode)];
      }
    }
    assert files[..|files|] == files;
  }

  /** The writes a run performs, in order: the target and the text written there. */
  function Writes(out: seq<string>, normpath: string -> NormPath, files: Dict<string, string>): seq<(seq<string>, string)>
  {
    if files == [] then []
    else
      var last := files[|files| - 1];
      Writes(out, normpath, files[..|files| - 1])
      + match Target(out, normpath(last.0)) case Some(t) => [(t, last.1 + "\n")] case None => []
  }

  /** The targets of the ".sh" files among the writes. */
  function ScriptTargets(out: seq<string>, normpath: string -> NormPath, files: Dict<string, string>): set<seq<string>>
  {
    if files == [] then {}
    else
      var last := files[|files| - 1];
      ScriptTargets(out, normpath, files[..|files| - 1])
      + match Target(out, normpath(last.0))
        case Some(t) => if EndsWith(last.0, ".sh") then {t} else {}
        case None => {}
  }

  /**
   * What a run leaves on disk: a path no file is written to is untouched; a
   * written path holds the text of the last write to it, and is executable
   * once any ".sh" file was written there, since later writes keep the mode.
   */
  lemma {:induction false} CreateSpec(disk: Disk, out: seq<string>, normpath: string -> NormPath, newMode: nat,
                                      files: Dict<string, string>, t: seq<string>)
    ensures var result := CreateProjectStructure(disk, out, normpath, newMode, files);
            var w := LastValue(Writes(out, normpath, files), t);
            && (w.None? ==> (t in result <==> t in disk) && (t in disk ==> result[t] == disk[t]))
            && (w.Some? ==> t in result && result[t].text == w.value)
            && (t in ScriptTargets(out, normpath, files) ==> t in result && result[t].mode == ExecMode)
  {
    if files != [] {
      var init := files[..|files| - 1];
      var last := files[|files| - 1];
      CreateSpec(disk, out, normpath, newMode, init, t);
      var step := match Target(out, normpath(last.0)) case Some(u) => [(u, last.1 + "\n")] case None => [];
      LastValueAppend(Writes(out, normpath, init), step, t);
    }
  }

  /** Every write lands strictly inside the output directory, at a path the filter let through. */
  lemma {:induction false} WritesInside(out: seq<string>, normpath: string -> NormPath, files: Dict<string, string>)
    ensures forall i :: 0 <= i < |Writes(out, normpath, files)| ==>
              var t := Writes(out, normpath, files)[i].0;
              |t| > |out| && t[..|out|] == out && ".." !in t[|out|..]
  {
    if files != [] {
      WritesInside(out, normpath, files[..|files| - 1]);
      var last := files[|files| - 1];
      var n := normpath(last.0);
      if Target(out, n).Some? {
        var t := out + n.parts;
        assert t[..|out|] == out && t[|out|..] == n.parts;
      }
    }
  }

  /**
   * A file whose path the filter rejects is skipped wherever it stands in the
   * dict: the disk is as it would be without it.
   */
  lemma {:induction false} UnsafeSkipped(disk: Disk, out: seq<string>, normpath: string -> NormPath, newMode: nat,
                                         a: Dict<string, string>, filePath: string, content: string,
                                         b: Dict<string, string>)
    requires !IsSafe(normpath(filePath))
    ensures CreateProjectStructure(disk, out, normpath, newMode, a + [(filePath, content)] + b)
            == CreateProjectStructure(disk, out, normpath, newMode, a + b)
    decreases |b|
  {
    var x := a + [(filePath, content)] + b;
    var y := a + b;
    if b == [] {
      assert x[..|x| - 1] == a && y == a;
    } else {
      assert x[..|x| - 1] == a + [(filePath, content)] + b[..|b| - 1];
      assert y[..|y| - 1] == a + b[..|b| - 1];
      assert x[|x| - 1] == y[|y| - 1];
      UnsafeSkipped(disk, out, normpath, newMode, a, filePath, content, b[..|b| - 1]);
    }
  }
}
