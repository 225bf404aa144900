# Aurora visualizer core, modelled in Dafny

This project models the parts of the Aurora music visualizer
(Nsomnia/aurora_visualizer_rust_fbd_recorder) that hold logic, and proves
what they promise:

- **Playback** (`src/playback.rs`). The track queue, the decoded sample
  buffer and its read cursor.
  - The packet loop of `play_track` is a fold over the reader's results.
  - The body of the audio output callback fills the device slice from the
    cursor, pads it with silence, and forwards the slice to the visualizer
    in slices of 512 samples.
- **Persisted preset sets** (`src/favorites.rs`, `src/preset_blocklist.rs`).
  Sets of preset paths, rewritten as newline-delimited files only when the
  set changes. The file is ghost state. `save` followed by `new` is proved
  to give back the same set when no element contains '\n' or ends in
  '\r'. An element made of two such lines joined by '\n' comes back as
  those two lines.
- **Missing-texture rule** (`src/main_app.rs`). A preset whose switch fails
  with a message containing "failed to find texture" is blocklisted.
- **Scratchpad managers** (`scratchpad/qwen3/src/...`).
  - A playlist and a preset list, each with a wrap-around cursor. Only the
    playlist has `remove_file`, which clamps its cursor.
  - A favorites list that never holds duplicates.
  - The preset-file extension test and the `mm:ss` duration formatter.
- **Chat-export converter**
  (`helper_scripts/general_shell_Scripts/convert_qwen_json_to_raw_project_structure.py`).
  - The walk over the loaded JSON export, with Python's dynamic errors.
  - The split of assistant text into `## File:` chunks.
  - The fenced-code-block regular expression.
  - The dict merge in which the last content wins.
  - The path-safety filter and the files the script writes.

Files: `wrappers.dfy` (Option, Result), `seqs.dfy`, `arith.dfy`,
`text.dfy` (substring search, Python `split`, `strip`), `playback.dfy`,
`line_file.dfy`, `favorites.dfy`, `preset_blocklist.dfy`, `main_app.dfy`,
`cursor.dfy`, `playlist_manager.dfy`, `preset_manager.dfy`,
`preset_favorites.dfy`, `helpers.dfy`, `py_json.dfy`, `py_dict.dfy`,
`export_contents.dfy`, `export_files.dfy`, `export_tree.dfy`.

Code that updates state in place is modelled as classes or loops, proved
against specification functions:
- the callback writes an `array`;
- the queue, the sets and the lists are fields the methods reassign;
- every Python loop is a `while` or `for` loop over the same items.

Behaviours of the code that the model follows:
- `ResetRequired` from `next_packet` reaches `unimplemented!()`, which
  aborts. From `decode` it reaches the catch-all `panic!`.
- The visualizer receives the converted output samples, read back with
  `to_f32`.
- The preset files are rewritten only when the set actually changes.
- `add_files` starts playback whenever no track is current and the queue is
  not empty, whether or not this is the first addition.

## Model

| member | source | states |
|---|---|---|
| Playback.DecodeTrack | src/playback.rs:147-182 | the packet loop as a fold over the reader's results: default-track packets append their decoded blocks, other tracks and corrupt packets are skipped, an I/O error or the end of the stream completes with the samples so far, and any other error aborts |
| Playback.Window | src/playback.rs:95-102 | what a callback of k slots at cursor p writes: slot i gets sample p+i while it exists, silence otherwise |
| Playback.Advance | src/playback.rs:96-98 | where the cursor ends after k slots: p plus one per slot filled from the buffer |
| Playback.Chunks | src/playback.rs:109 | `slice.chunks(n)`: consecutive slices of n samples, the last one holding 1 to n |
| Playback.DecodeFile | src/playback.rs:127-182 | `play_track`'s decode of one queued file: its packets, read from the default track, folded by the packet loop |
| Playback.DecodeLoop | src/playback.rs:147-182 | the packet loop returns exactly the outcome of the fold `DecodeTrack` over the reader's results for the default track |
| Playback.DecodeThroughContinuing | src/playback.rs:161-177 | packets the loop goes past contribute exactly the decoded blocks of the default track, in order, and the loop then continues with the rest |
| Playback.DecodeStopsAt | src/playback.rs:148-181 | an I/O error from `next_packet` or `decode` ends the loop keeping the samples so far; `ResetRequired` from `next_packet` reaches `unimplemented!()`; any other error, including `ResetRequired` from `decode`, panics |
| Playback.DecodeToEnd | src/playback.rs:147-182 | when the reader ends after packets the loop goes past, the buffer is the concatenation of the default track's decoded blocks |
| Playback.DecodeSkips | src/playback.rs:161-177 | a packet of another track, or a corrupt packet, changes nothing wherever it appears |
| Playback.WindowSplit | src/playback.rs:95-102 | a callback of k slots at cursor p writes the min(k, len-p) remaining samples, then silence; the cursor moves by exactly that many and never past the end |
| Playback.WindowExhausted | src/playback.rs:99-101 | with the cursor at the end, a callback writes only silence and leaves the cursor where it is |
| Playback.WindowConsecutive | src/playback.rs:95-102 | two callbacks in a row write what one callback over both slices would: no sample is skipped or repeated |
| Playback.ChunksReassemble | src/playback.rs:109-111 | `chunks(n)` yields ceil(len/n) slices whose concatenation is the input; all but the last hold n samples, the last holds 1 to n |
| Playback.ForwardToVisualizer | src/playback.rs:104-111 | the 512-sample slices handed to `pcm_add_float` are `chunks(512)` of the output, concatenate back to it, and number ceil(k/512) |
| Playback.Playback.constructor | src/playback.rs:68-75 | a new player has an empty queue, no current track, an empty buffer and the cursor at 0 |
| Playback.Playback.OutputCallback | src/playback.rs:92-111 | slot i gets `audio_data[p+i]` while p+i < len and silence after it; the cursor advances by min(k, len-p); the visualizer gets `chunks(512)` of the slice |
| Playback.Playback.PlayTrack | src/playback.rs:126-190 | an index past the queue changes nothing; a completed decode installs its samples, resets the cursor to 0 and makes the index current; the queue is untouched |
| Playback.Playback.AddFiles | src/playback.rs:119-124 | the paths are appended in order; track 0 is played only when no track is current and the queue is not empty |
| LineFile.Render | src/favorites.rs:49-54 | the text `save` writes: each line followed by '\n' |
| LineFile.Lines | src/favorites.rs:17 | `BufRead::lines`: the text cut at each '\n', the '\r' of a "\r\n" dropped, a last line without '\n' kept as it is, and no empty line after a final '\n' |
| LineFile.Load | src/favorites.rs:14-20 | `new`'s set: the lines of the file when it exists, the empty set otherwise |
| LineFile.LinesOfRender | src/favorites.rs:49-54 | reading back the text `save` writes gives the same lines when no line holds a '\n' or ends in '\r' |
| LineFile.EnumerateSet | src/favorites.rs:51-53 | the `for preset in &self.presets` loop visits every element of the set exactly once |
| LineFile.ReloadAfterSave | src/favorites.rs:14-20 | when no element contains '\n' or ends in '\r', a saved file holds one line per element and loading it gives back the same set |
| LineFile.NewlineSplitsOnReload | src/favorites.rs:17 | a saved element made of two line-safe lines joined by '\n' comes back as those two separate elements |
| Favorites.Favorites.constructor | src/favorites.rs:13-23 | `new` yields the set of the file's lines, duplicates collapsed, or the empty set when there is no file |
| Favorites.Favorites.Save | src/favorites.rs:49-54 | the file is rewritten with exactly one line per element |
| Favorites.Favorites.Add | src/favorites.rs:25-29 | the path is inserted; the file is rewritten exactly when the path was new, and otherwise neither set nor file changes |
| Favorites.Favorites.Remove | src/favorites.rs:31-35 | the path is deleted; the file is rewritten exactly when the path was present, and otherwise nothing changes |
| Favorites.Favorites.Contains | src/favorites.rs:37-39 | set membership |
| Favorites.Favorites.IsEmpty | src/favorites.rs:41-43 | set emptiness |
| PresetBlocklist.PresetBlocklist.constructor | src/preset_blocklist.rs:13-23 | `new` yields the set of the file's lines, or the empty set when there is no file |
| PresetBlocklist.PresetBlocklist.Save | src/preset_blocklist.rs:35-40 | the file is rewritten with exactly one line per element |
| PresetBlocklist.PresetBlocklist.Add | src/preset_blocklist.rs:25-29 | the path is inserted and the set only grows; the file is rewritten exactly when the path was new, and otherwise nothing changes |
| PresetBlocklist.PresetBlocklist.Contains | src/preset_blocklist.rs:31-33 | set membership |
| MainApp.ShouldBlock | src/main_app.rs:31 | the message contains "failed to find texture" |
| Text.Contains | src/main_app.rs:31 | Rust's `str::contains` and Python's `in` on strings: the pattern occurs at some index |
| MainApp.ShouldBlockIff | src/main_app.rs:31 | a message is classified as a missing texture exactly when "failed to find texture" occurs in it |
| MainApp.ShouldBlockInContext | src/main_app.rs:31 | the fragment anywhere inside a longer message still classifies it |
| MainApp.OnPresetSwitchFailed | src/main_app.rs:30-38 | when the message contains the fragment, the failed preset joins the blocklist: a new one is written to the blocklist file, and a repeat leaves the blocklist and its file alone; otherwise the blocklist is untouched |
| Cursor.Next | scratchpad/qwen3/src/playlist/manager.rs:45-53 | `next_track`'s new index: i+1, or 0 from the last index |
| Cursor.Prev | scratchpad/qwen3/src/playlist/manager.rs:55-67 | `previous_track`'s new index: i-1, or the last index from 0 |
| Cursor.StaysInRange | scratchpad/qwen3/src/playlist/manager.rs:45-67 | moving forward or back keeps an index inside a non-empty list |
| Cursor.PrevNextInverse | scratchpad/qwen3/src/playlist/manager.rs:45-67 | `previous` undoes `next` and `next` undoes `previous` |
| Cursor.NextNIsModulo | scratchpad/qwen3/src/playlist/manager.rs:49 | k steps forward from i land on (i+k) mod len |
| PlaylistManager.PlaylistManager.constructor | scratchpad/qwen3/src/playlist/manager.rs:15-23 | a new playlist is empty with index 0 |
| PlaylistManager.PlaylistManager.AddFile | scratchpad/qwen3/src/playlist/manager.rs:25-30 | the file is appended at the end and the index does not move |
| PlaylistManager.PlaylistManager.RemoveFile | scratchpad/qwen3/src/playlist/manager.rs:32-43 | an index past the end changes nothing; otherwise exactly that file goes, the rest keep their order, and an index left past the end of a non-empty list is clamped to the last file |
| PlaylistManager.PlaylistManager.NextTrack | scratchpad/qwen3/src/playlist/manager.rs:45-53 | (i+1) mod len on a non-empty list, nothing on an empty one; the index stays in range |
| PlaylistManager.PlaylistManager.PreviousTrack | scratchpad/qwen3/src/playlist/manager.rs:55-67 | i-1, or len-1 from 0, on a non-empty list, nothing on an empty one; the index stays in range |
| PlaylistManager.PlaylistManager.GetCurrentFile | scratchpad/qwen3/src/playlist/manager.rs:69-71 | the file at the index exactly when the index is in range, which under the invariant means exactly when the list is not empty |
| PresetManager.PresetManager.constructor | scratchpad/qwen3/src/presets/manager.rs:15-32 | `new` gives an empty preset list with index 0, since `load_presets` adds nothing |
| PresetManager.PresetManager.NextPreset | scratchpad/qwen3/src/presets/manager.rs:34-42 | (i+1) mod len on a non-empty list, nothing on an empty one |
| PresetManager.PresetManager.PreviousPreset | scratchpad/qwen3/src/presets/manager.rs:44-56 | i-1, or len-1 from 0, on a non-empty list, nothing on an empty one |
| PresetManager.PresetManager.ShuffleEnabled | scratchpad/qwen3/src/presets/manager.rs:58-60 | the settings' shuffle flag |
| PresetManager.PresetManager.ToggleShuffle | scratchpad/qwen3/src/presets/manager.rs:62-64 | nothing changes |
| PresetManager.PresetManager.GetCurrentPreset | scratchpad/qwen3/src/presets/manager.rs:66-68 | `Some` of the preset at the index exactly when the index is below the length |
| PresetFavorites.Without | scratchpad/qwen3/src/presets/favorites.rs:33 | `retain(\|p\| p != x)`: the list with every occurrence of x removed |
| PresetFavorites.WithoutMembers | scratchpad/qwen3/src/presets/favorites.rs:33 | `retain(\|p\| p != x)` removes every occurrence of x and keeps every other element |
| PresetFavorites.WithoutAppend | scratchpad/qwen3/src/presets/favorites.rs:33 | the removal keeps the order of what remains |
| PresetFavorites.WithoutAbsent | scratchpad/qwen3/src/presets/favorites.rs:33 | removing an absent preset leaves the list as it is |
| PresetFavorites.WithoutNoDups | scratchpad/qwen3/src/presets/favorites.rs:30-36 | removal keeps the list free of duplicates |
| PresetFavorites.FavoritesManager.constructor | scratchpad/qwen3/src/presets/favorites.rs:14-19 | a new list is empty |
| PresetFavorites.FavoritesManager.AddFavorite | scratchpad/qwen3/src/presets/favorites.rs:21-28 | appends only an absent preset, so no duplicate ever enters; afterwards the preset is a favorite |
| PresetFavorites.FavoritesManager.RemoveFavorite | scratchpad/qwen3/src/presets/favorites.rs:30-36 | every occurrence goes, the rest keep their order, and the preset is no longer a favorite |
| PresetFavorites.FavoritesManager.IsFavorite | scratchpad/qwen3/src/presets/favorites.rs:38-40 | list membership |
| PresetFavorites.FavoritesManager.GetFavorites | scratchpad/qwen3/src/presets/favorites.rs:42-44 | the list itself, in insertion order |
| Helpers.Extension | scratchpad/qwen3/src/utils/helpers.rs:10 | `Path::extension`: the text after the last '.' of the file name, or none when there is no file name, the name is "..", it has no '.', or its last '.' is its first character |
| Helpers.IsValidPresetFile | scratchpad/qwen3/src/utils/helpers.rs:6-15 | the extension is exactly "milk" or "prjm" |
| Helpers.FormatDuration | scratchpad/qwen3/src/utils/helpers.rs:17-21 | `format!("{:02}:{:02}", s / 60, s % 60)` of a `u32` |
| Helpers.IsValidPresetFileIff | scratchpad/qwen3/src/utils/helpers.rs:6-15 | a file name is a preset file exactly when it is a non-empty stem followed by ".milk" or ".prjm"; a path without a file name is not one |
| Helpers.ExtensionCaseSensitive | scratchpad/qwen3/src/utils/helpers.rs:10-14 | "a.MILK" is rejected and "a.milk" accepted: the comparison is case-sensitive |
| Helpers.FormatDurationShape | scratchpad/qwen3/src/utils/helpers.rs:17-21 | the output is at least two minute digits, ':' and exactly two second digits; they read back as s/60 and s mod 60 < 60, so minutes·60 + seconds = s |
| Helpers.FormatDurationNoHours | scratchpad/qwen3/src/utils/helpers.rs:17-21 | 6000 seconds print as "100:00": minutes above 99 take more digits and never roll over into hours |
| Helpers.Pad2Value | scratchpad/qwen3/src/utils/helpers.rs:20 | `{:02}` prints at least two digits that read back as the number, exactly two below 100 |
| PyJson.Subscript | helper_scripts/general_shell_Scripts/convert_qwen_json_to_raw_project_structure.py:19 | `v[key]` succeeds exactly on a dict holding the key and returns its value; a dict without it raises `KeyError`, anything else `TypeError` |
| PyJson.Get | helper_scripts/general_shell_Scripts/convert_qwen_json_to_raw_project_structure.py:23 | `v.get(key)` raises `AttributeError` exactly when v is not a dict, and gives a value exactly when the key is present |
| PyJson.In | helper_scripts/general_shell_Scripts/convert_qwen_json_to_raw_project_structure.py:23 | `key in v` raises `TypeError` exactly on `None`, a boolean or a number |
| PyJson.Iterate | helper_scripts/general_shell_Scripts/convert_qwen_json_to_raw_project_structure.py:24 | `for x in v` raises `TypeError` exactly on `None`, a boolean or a number; a dict yields one item per key |
| PyJson.InGuardsSubscript | helper_scripts/general_shell_Scripts/convert_qwen_json_to_raw_project_structure.py:23-26 | after a successful `key in v`, `v[key]` succeeds on a dict, raises `TypeError` on a list or string, and never raises `KeyError` |
| ExportContents.Collect | helper_scripts/general_shell_Scripts/convert_qwen_json_to_raw_project_structure.py:24-26 | the loops' accumulation: the items' contributions concatenated in order, or the first exception raised |
| ExportContents.MessageContent | helper_scripts/general_shell_Scripts/convert_qwen_json_to_raw_project_structure.py:23-26 | one message's contribution to `contents` |
| ExportContents.SessionContent | helper_scripts/general_shell_Scripts/convert_qwen_json_to_raw_project_structure.py:18-28 | one session inside its `try`: a `KeyError` or messages that are not a dict contribute nothing |
| ExportContents.ItemContent | helper_scripts/general_shell_Scripts/convert_qwen_json_to_raw_project_structure.py:25-26 | one item's contribution: its `content` when it is a dict with that key; nothing when the membership test is false; `TypeError` when `in` or the subscript fails on an item that is not a dict |
| ExportContents.MessagesOf | helper_scripts/general_shell_Scripts/convert_qwen_json_to_raw_project_structure.py:19 | `session['chat']['history']['messages']`: the first subscript that fails decides the error |
| ExportContents.FindAssistantContents | helper_scripts/general_shell_Scripts/convert_qwen_json_to_raw_project_structure.py:8-29 | a root that is not a list raises `TypeError`, and no `KeyError` ever escapes the function |
| ExportContents.NoKeyErrorEscapes | helper_scripts/general_shell_Scripts/convert_qwen_json_to_raw_project_structure.py:17-28 | the per-session `except KeyError` catches every `KeyError` the walk can raise |
| ExportContents.SessionOrder | helper_scripts/general_shell_Scripts/convert_qwen_json_to_raw_project_structure.py:17-28 | sessions contribute in order: the contents of a+b are those of a followed by those of b, and an error in a is raised first |
| ExportContents.SkippedSession | helper_scripts/general_shell_Scripts/convert_qwen_json_to_raw_project_structure.py:18-28 | a session missing `chat/history/messages`, or whose messages are not a dict, adds nothing and raises nothing |
| ExportContents.CollectItems | helper_scripts/general_shell_Scripts/convert_qwen_json_to_raw_project_structure.py:24-26 | the item loop appends the `content` of each item that has one, in order, and raises what the membership test or subscript raises |
| ExportContents.MessageContentCases | helper_scripts/general_shell_Scripts/convert_qwen_json_to_raw_project_structure.py:23-26 | a non-dict message raises `AttributeError`; a dict that is not an assistant message with a `content_list` contributes nothing; otherwise a list `content_list` contributes its items' fold, and one that cannot be iterated raises `TypeError`; only an assistant message with a `content_list` contributes content |
| ExportContents.CollectMessage | helper_scripts/general_shell_Scripts/convert_qwen_json_to_raw_project_structure.py:23-26 | the loop body returns exactly one message's contribution, whose cases `MessageContentCases` states |
| ExportContents.CollectMessages | helper_scripts/general_shell_Scripts/convert_qwen_json_to_raw_project_structure.py:22-26 | the message loop concatenates the messages' contributions in dict order |
| ExportContents.CollectAssistantContents | helper_scripts/general_shell_Scripts/convert_qwen_json_to_raw_project_structure.py:13-29 | the nested loops return exactly `find_assistant_contents`' result: contents in session, message and item order, or the exception raised |
| PyDict.Lookup | helper_scripts/general_shell_Scripts/convert_qwen_json_to_raw_project_structure.py:22-23 | `d.get(k)`: a value exactly when k is a key, and then an entry of the dict |
| PyDict.Put | helper_scripts/general_shell_Scripts/convert_qwen_json_to_raw_project_structure.py:50 | `d[k] = v`: a present key keeps its place with the new value, and a new key goes last |
| PyDict.PutAll | helper_scripts/general_shell_Scripts/convert_qwen_json_to_raw_project_structure.py:119 | `d.update(pairs)`: each pair stored in turn |
| PyDict.PutLookup | helper_scripts/general_shell_Scripts/convert_qwen_json_to_raw_project_structure.py:50 | `d[k] = v` stores v under k and leaves every other key alone |
| PyDict.PutKeys | helper_scripts/general_shell_Scripts/convert_qwen_json_to_raw_project_structure.py:50 | a present key keeps its place and a new key goes last |
| PyDict.PutAllLookup | helper_scripts/general_shell_Scripts/convert_qwen_json_to_raw_project_structure.py:116-119 | after storing a run of pairs, a key holds its last pair's value; a key none of them has keeps its old value |
| ExportFiles.FenceAt | helper_scripts/general_shell_Scripts/convert_qwen_json_to_raw_project_structure.py:38 | the code-block pattern tried at one position: "```", the longest tag run, '\n', then the shortest body before the next "```" |
| ExportFiles.ChunkFile | helper_scripts/general_shell_Scripts/convert_qwen_json_to_raw_project_structure.py:41-50 | one chunk: the stripped first line as the path and the stripped body of the first code block, when both exist |
| ExportFiles.ParseContentForFiles | helper_scripts/general_shell_Scripts/convert_qwen_json_to_raw_project_structure.py:31-51 | the dict built from the chunks after the first "\n\n## File: ", later chunks overwriting earlier ones |
| ExportFiles.MergeFiles | helper_scripts/general_shell_Scripts/convert_qwen_json_to_raw_project_structure.py:116-119 | `main`'s merge: each content parsed and `update`d into the result, `AttributeError` on the first content that is not a string |
| ExportFiles.Chunks | helper_scripts/general_shell_Scripts/convert_qwen_json_to_raw_project_structure.py:37-40 | `content.split('\n\n## File: ')[1:]`: the pieces after each header |
| ExportFiles.FoundFiles | helper_scripts/general_shell_Scripts/convert_qwen_json_to_raw_project_structure.py:40-50 | the (path, body) pairs the chunk loop records, in chunk order |
| ExportFiles.SearchFence | helper_scripts/general_shell_Scripts/convert_qwen_json_to_raw_project_structure.py:46 | `search` finds the leftmost position where the code-block pattern matches, or reports that none does |
| ExportFiles.FenceAtOf | helper_scripts/general_shell_Scripts/convert_qwen_json_to_raw_project_structure.py:38 | "```", a `[A-Za-z0-9_.-]*` tag, '\n', a body in which no "```" starts, then "```", is matched with that body captured |
| ExportFiles.ChunkFileOf | helper_scripts/general_shell_Scripts/convert_qwen_json_to_raw_project_structure.py:41-50 | a chunk whose first line names a path and whose rest opens with a fenced block records the stripped path with the stripped body |
| ExportFiles.NoFileWithout | helper_scripts/general_shell_Scripts/convert_qwen_json_to_raw_project_structure.py:47 | a chunk whose first line is blank, or with no "```" after its first line, records no file |
| ExportFiles.ParseContent | helper_scripts/general_shell_Scripts/convert_qwen_json_to_raw_project_structure.py:31-51 | the chunk loop builds exactly the dict `parse_content_for_files` returns |
| ExportFiles.PreambleIgnored | helper_scripts/general_shell_Scripts/convert_qwen_json_to_raw_project_structure.py:37-40 | text before the first "\n\n## File: " is ignored, and text without a header gives no files |
| ExportFiles.ParseLastWins | helper_scripts/general_shell_Scripts/convert_qwen_json_to_raw_project_structure.py:50 | within one text, a repeated path keeps the content of its last block |
| ExportFiles.Merge | helper_scripts/general_shell_Scripts/convert_qwen_json_to_raw_project_structure.py:113-119 | the loop in `main` returns exactly the merge of the parsed contents, or the exception raised |
| ExportFiles.MergeRaisesIff | helper_scripts/general_shell_Scripts/convert_qwen_json_to_raw_project_structure.py:116-119 | the merge raises exactly when some content is not a string, and then raises `AttributeError` |
| ExportFiles.MergeLastWins | helper_scripts/general_shell_Scripts/convert_qwen_json_to_raw_project_structure.py:116-119 | across messages, each path maps to the content of the last file found for it |
| ExportTree.IsSafe | helper_scripts/general_shell_Scripts/convert_qwen_json_to_raw_project_structure.py:66-67 | the filter: the normalised path is not absolute and has no ".." component |
| ExportTree.Target | helper_scripts/general_shell_Scripts/convert_qwen_json_to_raw_project_structure.py:66-72 | the path written for a file: the output directory joined with the normalised path, when the filter passes it and it names something below the directory |
| ExportTree.WriteFile | helper_scripts/general_shell_Scripts/convert_qwen_json_to_raw_project_structure.py:72-86 | one iteration: the text plus '\n' is written to the target, with mode 0o755 for a ".sh" path |
| ExportTree.CreateProjectStructure | helper_scripts/general_shell_Scripts/convert_qwen_json_to_raw_project_structure.py:53-86 | the files written in dict order, each iteration applied to the disk the previous one left |
| ExportTree.EndsWith | helper_scripts/general_shell_Scripts/convert_qwen_json_to_raw_project_structure.py:82 | `filepath.endswith('.sh')`: the text ends with the suffix |
| ExportTree.SafeStaysInside | helper_scripts/general_shell_Scripts/convert_qwen_json_to_raw_project_structure.py:66-72 | a normalised path the filter lets through resolves to a place inside the output directory |
| ExportTree.UnsafeSkipped | helper_scripts/general_shell_Scripts/convert_qwen_json_to_raw_project_structure.py:66-69 | a file whose normalised path is absolute or has a ".." component is skipped wherever it stands in the dict: the disk is as it would be without it |
| ExportTree.CreateFiles | helper_scripts/general_shell_Scripts/convert_qwen_json_to_raw_project_structure.py:53-86 | the loop leaves exactly the disk `create_project_structure` specifies |
| ExportTree.CreateSpec | helper_scripts/general_shell_Scripts/convert_qwen_json_to_raw_project_structure.py:64-86 | a path nothing is written to is untouched; a written path holds its last content plus '\n'; a path a ".sh" file was written to has mode 0o755 |
| ExportTree.WritesInside | helper_scripts/general_shell_Scripts/convert_qwen_json_to_raw_project_structure.py:66-72 | every write lands strictly inside the output directory, at a path with no ".." component |
| Text.Split | helper_scripts/general_shell_Scripts/convert_qwen_json_to_raw_project_structure.py:37 | `str.split(sep)`: the text cut at each leftmost occurrence of sep, at least one piece |
| Text.Strip | helper_scripts/general_shell_Scripts/convert_qwen_json_to_raw_project_structure.py:44 | `str.strip()`: leading and trailing Python whitespace removed |
| Text.SplitFirstLine | helper_scripts/general_shell_Scripts/convert_qwen_json_to_raw_project_structure.py:41-45 | `split('\n', 1)` with the missing rest read as "": the text before the first '\n' and the text after it |
| Text.SplitJoin | helper_scripts/general_shell_Scripts/convert_qwen_json_to_raw_project_structure.py:37 | `split(sep)` loses nothing: joining the pieces with sep gives the text back |
| Text.SplitPiecesFree | helper_scripts/general_shell_Scripts/convert_qwen_json_to_raw_project_structure.py:37 | no piece of a split contains the separator |
| Text.FirstNewline | helper_scripts/general_shell_Scripts/convert_qwen_json_to_raw_project_structure.py:41 | `split('\n', 1)` of a line followed by '\n' gives that line and the rest |
| Text.StripSpec | helper_scripts/general_shell_Scripts/convert_qwen_json_to_raw_project_structure.py:44 | `strip()` returns the slice between a whitespace-only prefix and suffix, and the result neither starts nor ends with whitespace |

## Left out

- cpal host, device and stream setup in `Playback::new` (src/playback.rs:29-66). These are hardware calls that `unwrap`, and they panic on an unsupported sample format.
- The `Arc<Mutex<…>>` sharing and the real-time audio thread. The callback is a sequential method on the same object.
- symphonia probing and codec creation in `play_track` (src/playback.rs:127-143). A queued path's packets are given by the `media` function. The panics on a missing extension, an unopenable file or an unknown format are not modelled.
- Playback.Playback.PlayTrack: the source aborts through `unimplemented!()` or `panic!`. The model reports those outcomes and leaves the state unchanged.
- Playback.Playback.OutputCallback: never panics. The source's sample conversions `T::from_f32(..).unwrap()` and `to_f32().unwrap()` (src/playback.rs:97, 100, 106) can panic. For example, `u16::from_f32` gives `None` at -1.0 or below and on NaN. Samples here are an abstract type, so the visualizer receives the output samples themselves. The scaling or truncation a conversion applies is not modelled, and neither is float rounding.
- `pcm_add_float` and the visualizer engine are outside the model. Their input is the list of slices passed to them.
- The `println!` logging in the failed-switch callback (src/main_app.rs:32-35) and elsewhere in the Rust code.
- `Playback::ui`, `src/ui.rs`, `src/projectm_widget.rs`, the rest of `src/main_app.rs` and the application entry points are UI and wiring.
- Favorites.Favorites: `iter` is not modelled, since it only exposes the set.
- File I/O in favorites and the blocklist. Files are ghost text, and `Path::exists` becomes an optional text. `File::open`, `File::create`, `writeln!` and `line.unwrap()` are assumed to succeed, although the source panics when they fail. HashSet iteration order is left to the set.
- `PathBuf` equality in the scratchpad managers and the playback queue is the equality of an abstract type. Component-wise path comparison is not modelled.
- The `anyhow::Result` values of the scratchpad managers are always `Ok`, so they are not modelled. Of the settings, only the shuffle flag is modelled.
- Helpers.Extension: takes the path's file name as input. Computing it from a full path (`Path::file_name`) is not modelled.
- Configuration defaults (`src/config.rs`, `scratchpad/qwen3/src/config/settings.rs`) and the scratchpad's SDL2, FFmpeg, Whisper, CLI and debug stubs are outside the core.
- In the converter, the following are not modelled:
  - `print`, `argparse` and `json.load`; the loaded value is an input;
  - `main`'s early returns, which only print;
  - `Path.resolve`, which is only used for display.
- JSON numbers keep their literal text, and float values are not modelled. An object is taken with distinct keys, as `json.load` returns it.
- `os.path.normpath` and `Path.parts` are taken as a parameter that returns the normalised path already split into components.
- ExportTree.Target: the output directory is taken to exist as a directory. On a first run it may not exist. A path that normalises to "." then writes a regular file at the output path itself. The model writes nothing for such a path.
- ExportTree.CreateFiles: `mkdir` of the parent directories is not modelled. Neither is a path component that is an existing file, where `mkdir` raises outside the `try` and aborts the script. Write errors other than writing to the output directory itself are not modelled. The disk is a map from full component paths to files. A new file's mode depends on the process umask and is a parameter.
