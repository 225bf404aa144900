/**
 * The scratchpad's preset manager (scratchpad/qwen3/src/presets/manager.rs):
 * a preset list with a wrap-around current index. `load_presets` is a stub
 * that adds nothing, so a new manager starts, and stays, with an empty list;
 * the methods are modelled for any list all the same. `toggle_shuffle` is an
 * empty stub and `shuffle_enabled` reads the settings flag.
 */
module PresetManager {
  import opened Wrappers
  import Cursor

  class PresetManager<P> {
    var presets: seq<P>
    var currentIndex: nat
    /** `settings.presets.shuffle`, the only setting the manager reads. */
    const shuffle: bool

    /** The index points into the list, and is 0 while the list is empty. */
    ghost predicate Valid()
      reads this
    {
      if presets == [] then currentIndex == 0 else currentIndex < |presets|
    }

    /** `PresetManager::new`, whose `load_presets` adds nothing: no presets, index 0. */
    constructor (shuffle: bool)
      ensures Valid() && presets == [] && currentIndex == 0 && this.shuffle == shuffle
    {
      presets := [];
      currentIndex := 0;
      this.shuffle := shuffle;
    }

    /** `next_preset`: one step forward with wrap-around; nothing on an empty list. */
    method NextPreset()
      requires Valid()
      modifies this
      ensures Valid() && presets == old(presets)
      ensures currentIndex == if presets == [] then old(currentIndex) else Cursor.Next(old(currentIndex), |presets|)
    {
      if presets != [] {
        currentIndex := (currentIndex + 1) % |presets|;
      }
    }

    /** `previous_preset`: one step back, from 0 to the last preset; nothing on an empty list. */
    method PreviousPreset()
      requires Valid()
      modifies this
      ensures Valid() && presets == old(presets)
      ensures currentIndex == if presets == [] then old(currentIndex) else Cursor.Prev(old(currentIndex), |presets|)
    {
      if presets != [] {
        if currentIndex > 0 {
          currentIndex := currentIndex - 1;
        } else {
          currentIndex := |presets| - 1;
        }
      }
    }

    /** `shuffle_enabled`: the settings flag. */
    method ShuffleEnabled() returns (enabled: bool)
      ensures enabled == shuffle
    {
      enabled := shuffle;
    }

    /** `toggle_shuffle`: an empty stub; the state is left exactly as it was. */
    method ToggleShuffle()
      modifies this
      ensures unchanged(this)
    {
    }

    /** `get_current_preset`: the preset at the index when it is in range. */
    method GetCurrentPreset() returns (r: Option<P>)
      ensures r == if currentIndex < |presets| then Some(presets[currentIndex]) else None
      ensures Valid() ==> (r.Some? <==> presets != [])
    {
      if currentIndex < |presets| {
        r := Some(presets[currentIndex]);
      } else {
        r := None;
      }
    }
  }
}
