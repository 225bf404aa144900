/**
 * The newline-delimited preset files behind `Favorites` (favorites.txt) and
 * `PresetBlocklist` (preset_blocklist.txt): how `save` writes a set, one
 * `writeln!` per element in the set's iteration order, and how `new` reads
 * it back through `BufRead::lines` into a set.
 */
module LineFile {
  import opened Wrappers
  import opened Seqs
  import Text

  /** The text written by one `writeln!(file, "{}", line)` per line. */
  function Render(lines: seq<string>): string
  {
    if lines == [] then [] else lines[0] + "\n" + Render(lines[1..])
  }

  /** The "\r" that `BufRead::lines` drops before a line's "\n". */
  function DropCr(line: string): string
  {
    if line != [] && line[|line| - 1] == '\r' then line[..|line| - 1] else line
  }

  /**
   * `BufRead::lines`: split at '\n', dropping the "\n" or "\r\n" that ends a
   * line; a last line without '\n' is kept as it is; empty text has no lines.
   */
  function Lines(text: string): seq<string>
    decreases |text|
  {
    if text == [] then []
    else
      match Text.FindFrom(text, "\n", 0)
      case None => [text]
      case Some(i) => [DropCr(text[..i])] + Lines(text[i + 1..])
  }

  /** A line that survives the round trip: no '\n' inside, no '\r' at its end. */
  predicate LineSafe(line: string)
  {
    '\n' !in line && (line == [] || line[|line| - 1] != '\r')
  }

  /** Reading back what was written gives the same lines, when each is line-safe. */
  lemma {:induction false} LinesOfRender(lines: seq<string>)
    requires forall i :: 0 <= i < |lines| ==> LineSafe(lines[i])
    ensures Lines(Render(lines)) == lines
  {
    if lines != [] {
      var l := lines[0];
      var rest := Render(lines[1..]);
      var t := Render(lines);
      assert t == l + "\n" + rest;
      Text.FirstNewline(l, rest);
      assert t[..|l|] == l;
      assert t[|l| + 1..] == rest;
      LinesOfRender(lines[1..]);
    }
  }

  /** The set `new` builds: the file's lines with duplicates collapsed; empty when there is no file. */
  function Load(file: Option<string>): set<string>
  {
    if file.None? then {} else set line | line in Lines(file.value)
  }

  /** `lines` lists every element of `s` exactly once, in some order. */
  ghost predicate Enumerates(lines: seq<string>, s: set<string>)
  {
    NoDups(lines) && forall x :: x in lines <==> x in s
  }

  /**
   * The `for preset in &self.presets` loop of `save`: visits every element
   * once, in an order the set chooses.
   */
  method EnumerateSet(s: set<string>) returns (lines: seq<string>)
    ensures Enumerates(lines, s)
    ensures |lines| == |s|
  {
    lines := [];
    var rest := s;
    while rest != {}
      invariant rest <= s
      invariant NoDups(lines)
      invariant forall x :: x in lines <==> x in s && x !in rest
      invariant |lines| + |rest| == |s|
      decreases |rest|
    {
      var x :| x in rest;
      lines := lines + [x];
      rest := rest - {x};
    }
  }

  /**
   * Save then load returns the same set, one line per element, when no
   * element holds a '\n' or ends in '\r'.
   */
  lemma ReloadAfterSave(lines: seq<string>, s: set<string>)
    requires Enumerates(lines, s)
    requires forall x :: x in s ==> LineSafe(x)
    ensures Lines(Render(lines)) == lines && |lines| == |s|
    ensures Load(Some(Render(lines))) == s
  {
    LinesOfRender(lines);
    DistinctCard(lines, s);
  }

  lemma {:induction false} DistinctCard(lines: seq<string>, s: set<string>)
    requires Enumerates(lines, s)
    ensures |lines| == |s|
  {
    if lines != [] {
      var x := lines[0];
      assert Enumerates(lines[1..], s - {x}) by {
        forall y ensures y in lines[1..] <==> y in s - {x} {
          if y in lines[1..] {
            var j :| 0 <= j < |lines[1..]| && lines[1..][j] == y;
            assert lines[j + 1] == y;
          }
          if y in lines && y != x {
            var j :| 0 <= j < |lines| && lines[j] == y;
            assert j != 0;
            assert lines[1..][j - 1] == y;
          }
        }
      }
      DistinctCard(lines[1..], s - {x});
    } else {
      assert s == {};
    }
  }

  /**
   * What a '\n' inside a saved element does: an element made of two
   * line-safe lines joined by '\n' comes back as those two lines.
   */
  lemma NewlineSplitsOnReload(l1: string, l2: string)
    requires LineSafe(l1) && LineSafe(l2)
    ensures Load(Some(Render([l1 + "\n" + l2]))) == {l1, l2}
  {
    assert [l1, l2][1..] == [l2];
    assert [l2][1..] == [];
    assert [l1 + "\n" + l2][1..] == [];
    calc {
      Render([l1 + "\n" + l2]);
      (l1 + "\n" + l2) + "\n" + Render([]);
      l1 + "\n" + (l2 + "\n" + Render([]));
      l1 + "\n" + Render([l2]);
      Render([l1, l2]);
    }
    LinesOfRender([l1, l2]);
  }
}
