/**
 * The one rule of the application wiring (src/main_app.rs) that decides
 * something: when the visualizer reports that switching to a preset failed,
 * the preset is blocklisted exactly when the message mentions a missing
 * texture.
 */
module MainApp {
  import Text
  import opened PresetBlocklist

  /** The message fragment that marks a preset as permanently unusable. */
  const MissingTexture: string := "failed to find texture"

  /** The classification: the message contains the fragment. */
  predicate ShouldBlock(message: string)
  {
    Text.Contains(message, MissingTexture)
  }

  /** A message is classified as a missing texture exactly when the fragment occurs in it. */
  lemma ShouldBlockIff(message: string)
    ensures ShouldBlock(message) <==> exists i :: Text.OccursAt(message, MissingTexture, i)
  {
    Text.ContainsIff(message, MissingTexture);
  }

  /** A message quoting the fragment inside other text is classified as a missing texture. */
  lemma ShouldBlockInContext(before: string, after: string)
    ensures ShouldBlock(before + MissingTexture + after)
  {
    var m := before + MissingTexture + after;
    assert m[|before|..|before| + |MissingTexture|] == MissingTexture;
    assert Text.OccursAt(m, MissingTexture, |before|);
    Text.ContainsIff(m, MissingTexture);
  }

  /** The preset-switch-failed callback registered in `MusicVisualizerApp::new`. */
  method OnPresetSwitchFailed(blocklist: PresetBlocklist, presetFilename: string, message: string)
    modifies blocklist
    ensures ShouldBlock(message) ==> blocklist.blockedPresets == old(blocklist.blockedPresets) + {presetFilename}
    ensures ShouldBlock(message) && presetFilename !in old(blocklist.blockedPresets) ==>
              blocklist.Persisted() && blocklist.saves == old(blocklist.saves) + 1
    ensures ShouldBlock(message) && presetFilename in old(blocklist.blockedPresets) ==> unchanged(blocklist)
    ensures !ShouldBlock(message) ==> unchanged(blocklist)
  {
    if Text.FindFrom(message, MissingTexture, 0).Some? {
      blocklist.Add(presetFilename);
    }
  }
}
