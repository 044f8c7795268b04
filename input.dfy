/**
 * Naming of the recorded HAR file. The clock (`new Date().toISOString()`) and the directory join
 * (`path.join`) are foreign, so the ISO-8601 text and the join are parameters.
 */
module Input {
  import opened Wrappers

  function Min(a: int, b: int): int {
    if a < b then a else b
  }

  /** `.replace(/[:-]/g, '-')`: every `:` and every `-` becomes `-`. */
  function DashSeparators(s: string): (r: string)
    ensures |r| == |s|
    ensures forall i :: 0 <= i < |s| ==> r[i] == (if s[i] == ':' then '-' else s[i])
  {
    if s == [] then []
    else [if s[0] == ':' || s[0] == '-' then '-' else s[0]] + DashSeparators(s[1..])
  }

  /** The mapping leaves no `:` behind, and applying it twice is applying it once. */
  lemma DashSeparatorsIdempotent(s: string)
    ensures ':' !in DashSeparators(s)
    ensures DashSeparators(DashSeparators(s)) == DashSeparators(s)
  {
    var r := DashSeparators(s);
    forall i | 0 <= i < |r| ensures r[i] != ':' {
    }
  }

  /** The timestamp keeps the first 19 characters: the date and the time to the second. */
  const TimestampLength := 19

  /** `toISOString().slice(0, 19).replace(/[:-]/g, '-')`. */
  function Timestamp(iso: string): (ts: string)
    ensures |ts| == Min(TimestampLength, |iso|)
    ensures ':' !in ts
    ensures forall i :: 0 <= i < |ts| ==> ts[i] == (if iso[i] == ':' then '-' else iso[i])
  {
    DashSeparatorsIdempotent(iso[..Min(TimestampLength, |iso|)]);
    DashSeparators(iso[..Min(TimestampLength, |iso|)])
  }

  /** `if (customFileName)`: a missing or empty name is falsy. */
  predicate IsGivenName(customFileName: Option<string>) {
    customFileName.Some? && customFileName.value != ""
  }

  /** The name the recorder picks when none is given: `recording-<ts>-<browser>.har`. */
  function DefaultFileName(browserName: string, iso: string): (name: string)
    ensures |name| == 10 + Min(TimestampLength, |iso|) + 1 + |browserName| + 4
  {
    "recording-" + Timestamp(iso) + "-" + browserName + ".har"
  }

  /**
   * The default name can be taken apart again: it starts with `recording-`, ends with `.har`, and
   * the timestamp and the browser name sit at fixed places between them.
   */
  lemma DefaultFileNameParts(browserName: string, iso: string)
    requires |iso| >= TimestampLength
    ensures var name := DefaultFileName(browserName, iso);
      && name[..10] == "recording-"
      && name[10..29] == Timestamp(iso)
      && name[29] == '-'
      && name[30..|name| - 4] == browserName
      && name[|name| - 4..] == ".har"
  {
    var ts := Timestamp(iso);
    var name := DefaultFileName(browserName, iso);
    assert name == "recording-" + ts + "-" + browserName + ".har";
    assert name[..10] == "recording-";
    assert name[10..29] == ts;
    assert name[30..|name| - 4] == browserName;
    assert name[|name| - 4..] == ".har";
  }

  /** Two browsers recording in the same second get different default names. */
  lemma DefaultFileNamesDistinguishBrowsers(browser1: string, browser2: string, iso: string)
    requires |iso| >= TimestampLength && browser1 != browser2
    ensures DefaultFileName(browser1, iso) != DefaultFileName(browser2, iso)
  {
    DefaultFileNameParts(browser1, iso);
    DefaultFileNameParts(browser2, iso);
  }

  /**
   * `generateHarPath(browserName, customFileName)`: a given name is joined under the HAR directory
   * unchanged; otherwise the default name is.
   */
  function GenerateHarPath(
    harsDir: string, join: (string, string) -> string, browserName: string,
    customFileName: Option<string>, iso: string): (path: string)
    ensures IsGivenName(customFileName) ==> path == join(harsDir, customFileName.value)
    ensures !IsGivenName(customFileName) ==> path == join(harsDir, DefaultFileName(browserName, iso))
  {
    if IsGivenName(customFileName) then join(harsDir, customFileName.value)
    else
      var timestamp := Timestamp(iso);
      var fileName := "recording-" + timestamp + "-" + browserName + ".har";
      join(harsDir, fileName)
  }
}
