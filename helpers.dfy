/**
 * The scratchpad's general helpers (scratchpad/qwen3/src/utils/helpers.rs):
 * the preset-file test on a path's extension, and the `mm:ss` duration
 * formatter.
 */
module Helpers {
  import opened Wrappers

  /** The index of the last '.' in `s`, if any. */
  function LastDot(s: string): (r: Option<nat>)
    ensures r.Some? ==> r.value < |s| && s[r.value] == '.' && '.' !in s[r.value + 1..]
    ensures r.None? ==> '.' !in s
  {
    if s == [] then None
    else if s[|s| - 1] == '.' then Some(|s| - 1)
    else
      var r := LastDot(s[..|s| - 1]);
      assert s == s[..|s| - 1] + [s[|s| - 1]];
      if r.Some? then
        assert s[r.value + 1..] == s[..|s| - 1][r.value + 1..] + [s[|s| - 1]];
        r
      else r
  }

  /**
   * Rust's `Path::extension` given the path's file name (`None` when the
   * path has none): the text after the last '.', except when there is no
   * dot, when the dot is the name's first character, or for "..".
   */
  function Extension(fileName: Option<string>): Option<string>
  {
    match fileName
    case None => None
    case Some(name) =>
      if name == ".." then None
      else match LastDot(name)
        case None => None
        case Some(i) => if i == 0 then None else Some(name[i + 1..])
  }

  /** `is_valid_preset_file`: the extension is exactly "milk" or "prjm". */
  predicate IsValidPresetFile(fileName: Option<string>)
  {
    match Extension(fileName)
    case Some(ext) => ext == "milk" || ext == "prjm"
    case None => false
  }

  /**
   * A file name is a preset file exactly when it is a non-empty stem followed
   * by ".milk" or ".prjm"; the comparison is case-sensitive, and a bare
   * ".milk" or a path without a file name is not one.
   */
  lemma IsValidPresetFileIff(name: string)
    ensures IsValidPresetFile(Some(name)) <==>
              |name| > 5 && (name[|name| - 5..] == ".milk" || name[|name| - 5..] == ".prjm")
    ensures !IsValidPresetFile(None)
  {
    var d := LastDot(name);
    if |name| > 5 && (name[|name| - 5..] == ".milk" || name[|name| - 5..] == ".prjm") {
      var i := |name| - 5;
      assert name[i] == '.';
      assert name[i + 1..] == name[|name| - 5..][1..];
      assert '.' !in name[i + 1..];
      assert d.Some?;
      assert d.value <= i;
      assert d.value == i;
    }
    if IsValidPresetFile(Some(name)) {
      assert d.Some? && d.value != 0;
      assert |name[d.value + 1..]| == 4;
      assert name[|name| - 5..] == [name[d.value]] + name[d.value + 1..];
    }
  }

  /** The test looks at the exact spelling of the extension. */
  lemma ExtensionCaseSensitive()
    ensures !IsValidPresetFile(Some("a.MILK"))
    ensures IsValidPresetFile(Some("a.milk"))
  {
    IsValidPresetFileIff("a.MILK");
    assert "a.MILK"[1..] != ".milk";
    assert "a.MILK"[1..] != ".prjm";
    IsValidPresetFileIff("a.milk");
    assert "a.milk"[1..] == ".milk";
  }

  /** Rust's `u32`, the type of the duration in seconds. */
  type U32 = n: nat | n < 0x1_0000_0000

  predicate IsDigit(c: char)
  {
    '0' <= c <= '9'
  }

  predicate AllDigits(s: string)
  {
    forall i :: 0 <= i < |s| ==> IsDigit(s[i])
  }

  function DigitChar(d: nat): char
    requires d < 10
  {
    ('0' as int + d) as char
  }

  /** A number printed in decimal without leading zeros, as `{}` prints it. */
  function Decimal(n: nat): string
  {
    if n < 10 then [DigitChar(n)] else Decimal(n / 10) + [DigitChar(n % 10)]
  }

  /** A number printed with `{:02}`: zero-padded to at least two digits. */
  function Pad2(n: nat): string
  {
    if n < 10 then "0" + Decimal(n) else Decimal(n)
  }

  /** `format_duration`: whole minutes, a colon, and the remaining seconds. */
  function FormatDuration(seconds: U32): string
  {
    Pad2(seconds / 60) + ":" + Pad2(seconds % 60)
  }

  /** The value of a string of decimal digits, read left to right. */
  function DecimalValue(s: string): nat
    requires AllDigits(s)
  {
    if s == [] then 0
    else DecimalValue(s[..|s| - 1]) * 10 + (s[|s| - 1] as int - '0' as int)
  }

  lemma {:induction false} DecimalValueOf(n: nat)
    ensures |Decimal(n)| >= 1 && AllDigits(Decimal(n))
    ensures n >= 10 ==> |Decimal(n)| >= 2
    ensures DecimalValue(Decimal(n)) == n
  {
    if n >= 10 {
      DecimalValueOf(n / 10);
      var s := Decimal(n);
      assert s[..|s| - 1] == Decimal(n / 10);
    }
  }

  lemma {:induction false} LeadingZero(s: string)
    requires AllDigits(s)
    ensures AllDigits("0" + s) && DecimalValue("0" + s) == DecimalValue(s)
  {
    if s != [] {
      var t := "0" + s;
      assert t[..|t| - 1] == "0" + s[..|s| - 1];
      LeadingZero(s[..|s| - 1]);
    }
  }

  lemma Pad2Value(n: nat)
    ensures AllDigits(Pad2(n)) && |Pad2(n)| >= 2 && DecimalValue(Pad2(n)) == n
    ensures n < 100 ==> |Pad2(n)| == 2
  {
    DecimalValueOf(n);
    if n < 10 {
      LeadingZero(Decimal(n));
    } else if n < 100 {
      DecimalValueOf(n / 10);
      assert n / 10 < 10;
    }
  }

  /**
   * The shape of `format_duration`'s output: at least two minute digits, a
   * colon, and exactly two second digits. The minutes read back as s / 60,
   * however large (they never roll over into hours), and the seconds as
   * s % 60, so together they give back s.
   */
  lemma FormatDurationShape(seconds: U32)
    ensures var r := FormatDuration(seconds);
            var c := |r| - 3;
            && c >= 2 && r[c] == ':'
            && AllDigits(r[..c]) && AllDigits(r[c + 1..])
            && DecimalValue(r[..c]) == seconds / 60
            && DecimalValue(r[c + 1..]) == seconds % 60 < 60
            && DecimalValue(r[..c]) * 60 + DecimalValue(r[c + 1..]) == seconds
  {
    var m := Pad2(seconds / 60);
    var s := Pad2(seconds % 60);
    Pad2Value(seconds / 60);
    Pad2Value(seconds % 60);
    var r := FormatDuration(seconds);
    assert r == m + ":" + s;
    assert r[..|m|] == m;
    assert r[|m| + 1..] == s;
  }

  /** An hour and forty minutes prints as one hundred minutes. */
  lemma FormatDurationNoHours()
    ensures FormatDuration(6000) == "100:00"
  {
    assert Decimal(100) == Decimal(10) + "0";
    assert Decimal(10) == "1" + "0";
  }
}
