/**
 * The scratchpad's playlist manager (scratchpad/qwen3/src/playlist/manager.rs):
 * a list of audio files and a current index that `next_track` and
 * `previous_track` move with wrap-around and `remove_file` clamps.
 * Every operation returns `Ok(())` in the source; the model leaves the
 * always-successful `Result` out.
 */
module PlaylistManager {
  import opened Wrappers
  import Cursor

  class PlaylistManager<P> {
    var files: seq<P>
    var currentIndex: nat

    /** The index points into the list, and is 0 while the list is empty. */
    ghost predicate Valid()
      reads this
    {
      if files == [] then currentIndex == 0 else currentIndex < |files|
    }

    /** `PlaylistManager::new`: no files, index 0. */
    constructor ()
      ensures Valid() && files == [] && currentIndex == 0
    {
      files := [];
      currentIndex := 0;
    }

    /** `add_file`: append at the end; the current index does not move. */
    method AddFile(file: P)
      requires Valid()
      modifies this
      ensures Valid()
      ensures files == old(files) + [file] && currentIndex == old(currentIndex)
    {
      files := files + [file];
    }

    /**
     * `remove_file`: an index past the end changes nothing; otherwise exactly
     * that file goes, the others keep their order, and an index left past the
     * end of a non-empty list is clamped to the last file.
     */
    method RemoveFile(index: nat)
      requires Valid()
      modifies this
      ensures Valid()
      ensures index >= |old(files)| ==> files == old(files) && currentIndex == old(currentIndex)
      ensures index < |old(files)| ==> files == old(files)[..index] + old(files)[index + 1..]
      ensures index < |old(files)| ==>
                currentIndex == if old(currentIndex) >= |files| && files != [] then |files| - 1 else old(currentIndex)
    {
      if index < |files| {
        files := files[..index] + files[index + 1..];
        if currentIndex >= |files| && files != [] {
          currentIndex := |files| - 1;
        }
      }
    }

    /** `next_track`: one step forward with wrap-around; nothing on an empty list. */
    method NextTrack()
      requires Valid()
      modifies this
      ensures Valid() && files == old(files)
      ensures currentIndex == if files == [] then old(currentIndex) else Cursor.Next(old(currentIndex), |files|)
    {
      if files != [] {
        currentIndex := (currentIndex + 1) % |files|;
      }
    }

    /** `previous_track`: one step back, from 0 to the last file; nothing on an empty list. */
    method PreviousTrack()
      requires Valid()
      modifies this
      ensures Valid() && files == old(files)
      ensures currentIndex == if files == [] then old(currentIndex) else Cursor.Prev(old(currentIndex), |files|)
    {
      if files != [] {
        if currentIndex > 0 {
          currentIndex := currentIndex - 1;
        } else {
          currentIndex := |files| - 1;
        }
      }
    }

    /** `get_current_file`: the file at the index when it is in range; with the invariant, whenever the list is not empty. */
    method GetCurrentFile() returns (r: Option<P>)
      ensures r == if currentIndex < |files| then Some(files[currentIndex]) else None
      ensures Valid() ==> (r.Some? <==> files != [])
    {
      if currentIndex < |files| {
        r := Some(files[currentIndex]);
      } else {
        r := None;
      }
    }
  }
}
