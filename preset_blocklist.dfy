/**
 * The preset blocklist (src/preset_blocklist.rs): a set of preset paths kept
 * in preset_blocklist.txt. It only grows: there is no removal, and adding a
 * path already present neither changes the set nor rewrites the file.
 */
module PresetBlocklist {
  import opened Wrappers
  import opened LineFile

  class PresetBlocklist {
    var blockedPresets: set<string>
    /** The text of preset_blocklist.txt; `None` while the file does not exist. */
    ghost var file: Option<string>
    /** How many times `save` has rewritten the file. */
    ghost var saves: nat

    /** The file holds one line per blocked preset. */
    ghost predicate Persisted()
      reads this
    {
      file.Some? && exists lines :: Enumerates(lines, blockedPresets) && file.value == Render(lines)
    }

    /** `PresetBlocklist::new`: the lines of the file on disk as a set; empty when there is none. */
    constructor (disk: Option<string>)
      ensures blockedPresets == Load(disk)
      ensures file == disk && saves == 0
    {
      blockedPresets := Load(disk);
      file := disk;
      saves := 0;
    }

    /** `save`: one `writeln!` per blocked preset, replacing the file. */
    method Save()
      modifies this`file, this`saves
      ensures Persisted()
      ensures saves == old(saves) + 1
    {
      var lines := EnumerateSet(blockedPresets);
      file := Some(Render(lines));
      saves := saves + 1;
    }

    /** `add`: insert, and save only when the path is new. */
    method Add(presetPath: string)
      modifies this
      ensures blockedPresets == old(blockedPresets) + {presetPath}
      ensures old(blockedPresets) <= blockedPresets
      ensures presetPath in old(blockedPresets) ==> unchanged(this)
      ensures presetPath !in old(blockedPresets) ==> Persisted() && saves == old(saves) + 1
    {
      var inserted := presetPath !in blockedPresets;
      blockedPresets := blockedPresets + {presetPath};
      assert !inserted ==> blockedPresets == old(blockedPresets);
      if inserted {
        Save();
      }
    }

    /** `contains`: set membership. */
    method Contains(presetPath: string) returns (b: bool)
      ensures b <==> presetPath in blockedPresets
    {
      b := presetPath in blockedPresets;
    }
  }
}
