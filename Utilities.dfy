/** The platform helpers: a platform's description, its path separator, and a
    URL's path written with that separator. The platform, which the source
    detects at compile time, is an explicit argument here. */
module Utilities {
  import opened Common
  import opened Strings

  datatype Platform = MacOSIntel | MacOSARM | LinuxIntel | WindowsIntel | Unknown

  /** `Platform.description`. */
  function Description(p: Platform): (r: Option<string>)
    ensures r.None? <==> p == Unknown
    ensures p == LinuxIntel ==> r == Some("RedHat7.Intel")
    ensures p == MacOSARM ==> r == Some("macOS.ARM")
    ensures p == MacOSIntel ==> r == Some("macOS.Intel")
    ensures p == WindowsIntel ==> r == Some("Windows.Intel")
  {
    match p
    case MacOSARM => Some("macOS.ARM")
    case MacOSIntel => Some("macOS.Intel")
    case LinuxIntel => Some("RedHat7.Intel")
    case WindowsIntel => Some("Windows.Intel")
    case Unknown => None
  }

  /** Distinct platforms have distinct descriptions. */
  lemma DescriptionInjective(p: Platform, q: Platform)
    requires Description(p) == Description(q)
    ensures p == q
  {
  }

  /** `pathSeparator()`: a backslash on Windows, a slash everywhere else. */
  function PathSeparator(p: Platform): (r: string)
    ensures |r| == 1
    ensures r == "\\" <==> p == WindowsIntel
    ensures r != "\\" ==> r == "/"
  {
    if p == WindowsIntel then "\\" else "/"
  }

  /** A file URL, as `URL(fileURLWithPath:)` makes it; only its path is modelled. */
  datatype URL = FileURL(path: string)

  /** `URL.osPath`: the URL's path with each `/` replaced by the separator. */
  function OsPath(url: URL, p: Platform): (r: string)
    ensures |r| == |url.path|
    ensures forall i :: 0 <= i < |r| ==>
              r[i] == if url.path[i] == '/' then PathSeparator(p)[0] else url.path[i]
    ensures p != WindowsIntel ==> r == url.path
    ensures p == WindowsIntel ==> '/' !in r
  {
    var sep := PathSeparator(p);
    ReplaceCharPointwise(url.path, '/', sep[0]);
    assert [sep[0]] == sep;
    ReplaceChar(url.path, '/', sep)
  }

  /** On Windows the conversion is undone by turning each backslash back into a
      slash, provided the original path had no backslash of its own. */
  lemma OsPathInverse(url: URL)
    requires '\\' !in url.path
    ensures ReplaceChar(OsPath(url, WindowsIntel), '\\', "/") == url.path
  {
    var r := OsPath(url, WindowsIntel);
    ReplaceCharPointwise(r, '\\', '/');
    var back := ReplaceChar(r, '\\', "/");
    assert |back| == |url.path|;
    forall i | 0 <= i < |back| ensures back[i] == url.path[i] {
      assert url.path[i] != '\\';
    }
  }
}
