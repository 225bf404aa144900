/**
 * `parse_content_for_files` and the merge loop of `main` in the
 * chat-export converter
 * (helper_scripts/general_shell_Scripts/convert_qwen_json_to_raw_project_structure.py):
 * assistant text is cut at "\n\n## File: " headers; each later chunk names a
 * file on its first line and carries the file's text in the first fenced
 * code block after it.
 */
module ExportFiles {
  import opened Wrappers
  import opened Text
  import opened PyDict
  import opened PyJson

  /** The separator the text is split on. */
  const FileHeader: string := "\n\n## File: "
  /** The delimiter of a fenced code block. */
  const Fence: string := "```"

  /** The class `[a-zA-Z0-9_.-]` of the fence's language tag. */
  predicate IsTagChar(c: char)
  {
    'a' <= c <= 'z' || 'A' <= c <= 'Z' || '0' <= c <= '9' || c == '_' || c == '.' || c == '-'
  }

  predicate AllTag(s: string)
  {
    forall i :: 0 <= i < |s| ==> IsTagChar(s[i])
  }

  /** Where the run of tag characters starting at `i` ends: the greedy `[a-zA-Z0-9_.-]*`. */
  function TagEnd(s: string, i: nat): (j: nat)
    requires i <= |s|
    decreases |s| - i
    ensures i <= j <= |s| && AllTag(s[i..j]) && (j == |s| || !IsTagChar(s[j]))
  {
    if i < |s| && IsTagChar(s[i]) then
      var j := TagEnd(s, i + 1);
      assert s[i..j] == [s[i]] + s[i + 1..j];
      j
    else i
  }

  /**
   * The match of "```(?:[a-zA-Z0-9_.-]*)?\n(.*?)```" (DOTALL) starting at
   * `p`, as its captured body. The tag run is greedy and no tag character is
   * a '\n', so it must be followed by '\n'; the lazy body then ends at the
   * nearest "```".
   */
  function FenceAt(s: string, p: nat): Option<string>
  {
    if !OccursAt(s, Fence, p) then None
    else
      var t := TagEnd(s, p + |Fence|);
      if t < |s| && s[t] == '\n' then
        match FindFrom(s, Fence, t + 1)
        case Some(q) => Some(s[t + 1..q])
        case None => None
      else None
  }

  /** `code_block_regex.search(s)` from position `from`: the leftmost position where the pattern matches. */
  function SearchFence(s: string, from: nat): (r: Option<nat>)
    decreases |s| + 1 - from
    ensures r.Some? ==> from <= r.value && FenceAt(s, r.value).Some?
    ensures r.Some? ==> forall p :: from <= p < r.value ==> FenceAt(s, p).None?
    ensures r.None? ==> forall p :: from <= p ==> FenceAt(s, p).None?
  {
    if from > |s| then None
    else if FenceAt(s, from).Some? then Some(from)
    else SearchFence(s, from + 1)
  }

  /**
   * One chunk after a header: its first line, stripped, is the path, and
   * the first fenced block of the rest, stripped, is the content; the chunk
   * names a file only when the path is not empty and a block is found.
   */
  function ChunkFile(chunk: string): Option<(string, string)>
  {
    var (line, rest) := SplitFirstLine(chunk);
    var path := Strip(line);
    match SearchFence(rest, 0)
    case Some(p) => if path != [] then Some((path, Strip(FenceAt(rest, p).value))) else None
    case None => None
  }

  /** The files the chunks name, in order; a path may repeat. */
  function FoundFiles(chunks: seq<string>): seq<(string, string)>
  {
    if chunks == [] then []
    else (match ChunkFile(chunks[0]) case Some(f) => [f] case None => []) + FoundFiles(chunks[1..])
  }

  /** The chunks that follow a header: everything but the text before the first one. */
  function Chunks(content: string): seq<string>
  {
    Split(content, FileHeader)[1..]
  }

  /** `parse_content_for_files(content)`: each found file stored in turn into an empty dict. */
  function ParseContentForFiles(content: string): Dict<string, string>
  {
    PutAll([], FoundFiles(Chunks(content)))
  }

  /** The loop of `parse_content_for_files`. */
  method ParseContent(content: string) returns (files: Dict<string, string>)
    ensures files == ParseContentForFiles(content)
  {
    var fileChunks := Split(content, FileHeader);
    var chunks := fileChunks[1..];
    assert chunks == Chunks(content);
    ghost var all := FoundFiles(chunks);
    files := [];
    var i := 0;
    assert chunks[i..] == chunks;
    while i < |chunks|
      invariant i <= |chunks|
      invariant PutAll(files, FoundFiles(chunks[i..])) == PutAll([], all)
    {
      FoundStep(chunks, i);
      var parts := SplitFirstLine(chunks[i]);
      var filePath := Strip(parts.0);
      var m := SearchFence(parts.1, 0);
      if filePath != [] && m.Some? {
        var code := Strip(FenceAt(parts.1, m.value).value);
        assert ChunkFile(chunks[i]) == Some((filePath, code));
        PutAllCons(files, (filePath, code), FoundFiles(chunks[i + 1..]));
        files := Put(files, filePath, code);
      } else {
        assert ChunkFile(chunks[i]) == None;
        assert FoundFiles(chunks[i..]) == FoundFiles(chunks[i + 1..]);
      }
      i := i + 1;
    }
  }

  lemma FoundStep(chunks: seq<string>, i: nat)
    requires i < |chunks|
    ensures FoundFiles(chunks[i..]) ==
              (match ChunkFile(chunks[i]) case Some(f) => [f] case None => []) + FoundFiles(chunks[i + 1..])
  {
    assert chunks[i..][1..] == chunks[i + 1..];
  }

  lemma PutAllCons(d: Dict<string, string>, f: (string, string), rest: seq<(string, string)>)
    ensures PutAll(d, [f] + rest) == PutAll(Put(d, f.0, f.1), rest)
  {
    assert ([f] + rest)[1..] == rest;
  }

  /** The tag run ends exactly where the tag characters stop. */
  lemma {:induction false} TagEndAt(s: string, i: nat, j: nat)
    requires i <= j < |s| && AllTag(s[i..j]) && !IsTagChar(s[j])
    ensures TagEnd(s, i) == j
    decreases j - i
  {
    if i < j {
      assert s[i] == s[i..j][0];
      assert s[i + 1..j] == s[i..j][1..];
      TagEndAt(s, i + 1, j);
    }
  }

  /** The search finds the first occurrence at or after `from`. */
  lemma FindFromFirst(s: string, pat: string, from: nat, q: nat)
    requires from <= q && OccursAt(s, pat, q)
    requires forall k :: from <= k < q ==> !OccursAt(s, pat, k)
    ensures FindFrom(s, pat, from) == Some(q)
  {
  }

  /**
   * The pattern's match, read the other way: "```", a tag, '\n', a body in
   * which no "```" starts, then "```", is matched with that body captured.
   */
  lemma FenceAtOf(tag: string, body: string, tail: string)
    requires AllTag(tag)
    requires !Contains(body + "``", Fence)
    ensures FenceAt(Fence + tag + "\n" + body + Fence + tail, 0) == Some(body)
  {
    var s := Fence + tag + "\n" + body + Fence + tail;
    var t := |Fence| + |tag|;
    var b := t + 1;
    assert s[..3] == Fence;
    assert s[3..t] == tag;
    assert s[t] == '\n';
    TagEndAt(s, 3, t);
    assert s[b..b + |body|] == body;
    assert s[b + |body|..b + |body| + 3] == Fence;
    assert s[b..b + |body| + 2] == body + "``";
    forall k | b <= k < b + |body|
      ensures !OccursAt(s, Fence, k)
    {
      assert s[k..k + 3] == (body + "``")[k - b..k - b + 3];
      assert !OccursAt(body + "``", Fence, k - b);
    }
    FindFromFirst(s, Fence, b, b + |body|);
  }

  /**
   * A chunk whose first line names a path and whose rest opens with a
   * fenced block records that path, stripped, with the block's body,
   * stripped.
   */
  lemma ChunkFileOf(line: string, tag: string, body: string, tail: string)
    requires '\n' !in line && Strip(line) != []
    requires AllTag(tag) && !Contains(body + "``", Fence)
    ensures ChunkFile(line + "\n" + (Fence + tag + "\n" + body + Fence + tail)) == Some((Strip(line), Strip(body)))
  {
    var rest := Fence + tag + "\n" + body + Fence + tail;
    FirstNewline(line, rest);
    FenceAtOf(tag, body, tail);
  }

  /** A chunk names no file when its first line is blank or no "```" follows it. */
  lemma NoFileWithout(chunk: string)
    ensures AllSpace(SplitFirstLine(chunk).0) ==> ChunkFile(chunk).None?
    ensures !Contains(SplitFirstLine(chunk).1, Fence) ==> ChunkFile(chunk).None?
  {
    var (line, rest) := SplitFirstLine(chunk);
    StripSpec(line);
    if !Contains(rest, Fence) {
      forall p: nat
        ensures FenceAt(rest, p).None?
      {
        assert !OccursAt(rest, Fence, p);
      }
    }
  }

  /**
   * The text before the first header is ignored: parsing gives nothing when
   * there is no header, and otherwise the same as parsing from the first
   * header on.
   */
  lemma PreambleIgnored(content: string)
    ensures FindFrom(content, FileHeader, 0).None? ==> ParseContentForFiles(content) == []
    ensures FindFrom(content, FileHeader, 0).Some? ==>
              ParseContentForFiles(content) == ParseContentForFiles(content[FindFrom(content, FileHeader, 0).value..])
  {
    var f := FindFrom(content, FileHeader, 0);
    if f.Some? {
      var i := f.value;
      var from := content[i..];
      assert from[..|FileHeader|] == content[i..i + |FileHeader|];
      FindFromFirst(from, FileHeader, 0, 0);
      assert from[|FileHeader|..] == content[i + |FileHeader|..];
      assert Chunks(from) == Chunks(content);
    }
  }

  /** Within one text, a repeated path keeps the content of its last block. */
  lemma ParseLastWins(content: string, path: string)
    ensures Lookup(ParseContentForFiles(content), path) == LastValue(FoundFiles(Chunks(content)), path)
  {
    PutAllLookup([], FoundFiles(Chunks(content)), path);
  }

  /**
   * The loop in `main`: parse each assistant content in turn and `update`
   * the merged dict with what it found. A content that is not a string has
   * no `split`, which raises `AttributeError`.
   */
  function MergeFiles(contents: seq<Json>): Result<Dict<string, string>, PyError>
  {
    if contents == [] then Ok([])
    else
      match MergeFiles(contents[..|contents| - 1])
      case Err(e) => Err(e)
      case Ok(all) =>
        match contents[|contents| - 1]
        case JStr(text) => Ok(PutAll(all, ParseContentForFiles(text)))
        case _ => Err(AttributeError)
  }

  /** Every file found, across all the contents, in order. */
  function AllFound(contents: seq<Json>): seq<(string, string)>
  {
    if contents == [] then []
    else
      AllFound(contents[..|contents| - 1])
      + match contents[|contents| - 1] case JStr(text) => FoundFiles(Chunks(text)) case _ => []
  }

  /** The loop of `main` over the assistant contents. */
  method Merge(contents: seq<Json>) returns (r: Result<Dict<string, string>, PyError>)
    ensures r == MergeFiles(contents)
  {
    var allFiles: Dict<string, string> := [];
    var i := 0;
    while i < |contents|
      invariant i <= |contents|
      invariant MergeFiles(contents[..i]) == Ok(allFiles)
    {
      assert contents[..i + 1][..i] == contents[..i];
      if !contents[i].JStr? {
        MergeRaisesAfter(contents, i + 1);
        return Err(AttributeError);
      }
      var found := ParseContent(contents[i].s);
      allFiles := PutAll(allFiles, found);
      i := i + 1;
    }
    assert contents[..i] == contents;
    return Ok(allFiles);
  }

  /** Once a content that is not a string is reached, the merge raises `AttributeError`. */
  lemma {:induction false} MergeRaisesAfter(contents: seq<Json>, i: nat)
    requires i <= |contents| && MergeFiles(contents[..i]) == Err(AttributeError)
    ensures MergeFiles(contents) == Err(AttributeError)
    decreases |contents| - i
  {
    if i < |contents| {
      assert contents[..i + 1][..i] == contents[..i];
      MergeRaisesAfter(contents, i + 1);
    } else {
      assert contents[..i] == contents;
    }
  }

  /** The merge raises exactly when some content is not a string, and then raises `AttributeError`. */
  lemma {:induction false} MergeRaisesIff(contents: seq<Json>)
    ensures MergeFiles(contents).Err? <==> exists i :: 0 <= i < |contents| && !contents[i].JStr?
    ensures MergeFiles(contents).Err? ==> MergeFiles(contents).error == AttributeError
  {
    if contents != [] {
      var init := contents[..|contents| - 1];
      MergeRaisesIff(init);
      if exists i :: 0 <= i < |init| && !init[i].JStr? {
        var i :| 0 <= i < |init| && !init[i].JStr?;
        assert contents[i] == init[i];
      }
      if exists i :: 0 <= i < |contents| && !contents[i].JStr? {
        var i :| 0 <= i < |contents| && !contents[i].JStr?;
        if i < |init| {
          assert init[i] == contents[i];
        }
      }
    }
  }

  /**
   * Across messages, too, the last content found for a path wins: the merged
   * dict maps each path to its value in the last file found for it.
   */
  lemma {:induction false} MergeLastWins(contents: seq<Json>, path: string)
    requires MergeFiles(contents).Ok?
    ensures Lookup(MergeFiles(contents).value, path) == LastValue(AllFound(contents), path)
  {
    if contents != [] {
      var init := contents[..|contents| - 1];
      MergeLastWins(init, path);
      var all := MergeFiles(init).value;
      var text := contents[|contents| - 1].s;
      var found := FoundFiles(Chunks(text));
      var parsed := ParseContentForFiles(text);
      PutAllLookup(all, parsed, path);
      PutAllDistinct([], found);
      LastValueOfDict(parsed, path);
      PutAllLookup([], found, path);
      LastValueAppend(AllFound(init), found, path);
    }
  }
}
