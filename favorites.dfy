/**
 * The favorite presets (src/favorites.rs): a set of preset paths kept in
 * favorites.txt, rewritten in full each time the set actually changes.
 * The file is ghost state: its text, or `None` while it does not exist,
 * and a count of the rewrites.
 */
module Favorites {
  import opened Wrappers
  import opened LineFile

  class Favorites {
    var presets: set<string>
    /** The text of favorites.txt; `None` while the file does not exist. */
    ghost var file: Option<string>
    /** How many times `save` has rewritten the file. */
    ghost var saves: nat

    /** The file holds one line per element of the set, which every save leaves behind. */
    ghost predicate Persisted()
      reads this
    {
      file.Some? && exists lines :: Enumerates(lines, presets) && file.value == Render(lines)
    }

    /** `Favorites::new`: the lines of the file on disk as a set; empty when there is none. */
    constructor (disk: Option<string>)
      ensures presets == Load(disk)
      ensures file == disk && saves == 0
    {
      presets := Load(disk);
      file := disk;
      saves := 0;
    }

    /** `save`: one `writeln!` per element, replacing the file. */
    method Save()
      modifies this`file, this`saves
      ensures Persisted()
      ensures saves == old(saves) + 1
    {
      var lines := EnumerateSet(presets);
      file := Some(Render(lines));
      saves := saves + 1;
    }

    /** `add`: insert, and save only when the path was not there yet. */
    method Add(presetPath: string)
      modifies this
      ensures presets == old(presets) + {presetPath}
      ensures presetPath in old(presets) ==> file == old(file) && saves == old(saves)
      ensures presetPath !in old(presets) ==> Persisted() && saves == old(saves) + 1
    {
      var inserted := presetPath !in presets;
      presets := presets + {presetPath};
      if inserted {
        Save();
      }
    }

    /** `remove`: delete, and save only when the path was there. */
    method Remove(presetPath: string)
      modifies this
      ensures presets == old(presets) - {presetPath}
      ensures presetPath !in old(presets) ==> file == old(file) && saves == old(saves)
      ensures presetPath in old(presets) ==> Persisted() && saves == old(saves) + 1
    {
      var removed := presetPath in presets;
      presets := presets - {presetPath};
      if removed {
        Save();
      }
    }

    /** `contains`: set membership. */
    method Contains(presetPath: string) returns (b: bool)
      ensures b <==> presetPath in presets
    {
      b := presetPath in presets;
    }

    /** `is_empty`: the set has no element. */
    method IsEmpty() returns (b: bool)
      ensures b <==> presets == {}
    {
      b := |presets| == 0;
    }
  }
}
