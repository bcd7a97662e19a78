/**
 * The installer of the native messaging host: the Chrome extension-ID check of
 * `main_install` and the manifest record `install_host` builds for each browser.
 */
module HostSetup {
  import opened Common

  datatype Result<T> = Ok(value: T) | Err(message: string)

  const HOST_NAME := "org.mpris.streamkeys_host"
  const HOST_DESCRIPTION := "Streamkeys MPRIS native messaging host"
  const HOST_TYPE := "stdio"
  const HOST_FILENAME := "streamkeys_mpris.py"
  const FIREFOX_EXT_ID := "streamkeys@streamkeys.com"
  const CHROME_ORIGIN_PREFIX := "chrome-extension://"

  /**
   * A Chrome extension id: 32 characters, each between 'a' (code point 97) and
   * 'p' (code point 112), the hexadecimal alphabet shifted onto a..p.
   */
  predicate ValidChromeExtensionId(id: string) {
    |id| == 32 && forall i :: 0 <= i < |id| ==> 97 <= id[i] as int < 113
  }

  /** The origin a Chrome manifest allows for an extension id. */
  function ChromeOrigin(id: string): (origin: string)
    ensures |origin| == |id| + 20
    ensures origin[..19] == CHROME_ORIGIN_PREFIX && origin[19..|origin| - 1] == id && origin[|origin| - 1] == '/'
  {
    CHROME_ORIGIN_PREFIX + id + "/"
  }

  /** Reads the extension id back out of a Chrome origin. */
  function ExtensionIdOfOrigin(origin: string): Option<string> {
    if |origin| >= 20 && origin[..19] == CHROME_ORIGIN_PREFIX && origin[|origin| - 1] == '/'
    then Some(origin[19..|origin| - 1])
    else None
  }

  /** `os.path.join(dir, name)` for a relative `name`. */
  function PathJoin(dir: string, name: string): (path: string)
    ensures |path| >= |name| && path[|path| - |name|..] == name
    ensures dir == [] ==> path == name
  {
    if dir == [] || dir[|dir| - 1] == '/' then dir + name else dir + "/" + name
  }

  /** The manifest record written for the browser; `allowedKey` names the list it carries. */
  datatype Manifest = Manifest(
    name: string,
    description: string,
    path: string,
    hostType: string,
    allowedKey: string,
    allowed: seq<string>)

  /** The manifest a single `install` run writes, whose allowed list then holds just this extension. */
  function Install(id: string, installDir: string, firefox: bool): (r: Result<Manifest>)
    ensures r.Err? <==> !firefox && !ValidChromeExtensionId(id)
    ensures r.Err? ==> r.message == "Not valid extension ID: " + id
    ensures r.Ok? ==>
              && r.value.path == PathJoin(installDir, HOST_FILENAME)
              && r.value.name == HOST_NAME && r.value.hostType == HOST_TYPE
              && r.value.allowedKey == (if firefox then "allowed_extensions" else "allowed_origins")
              && r.value.allowed == [if firefox then id else ChromeOrigin(id)]
  {
    if !firefox && !ValidChromeExtensionId(id) then Err("Not valid extension ID: " + id)
    else
      var key := if firefox then "allowed_extensions" else "allowed_origins";
      var entry := if firefox then id else ChromeOrigin(id);
      Ok(Manifest(HOST_NAME, HOST_DESCRIPTION, PathJoin(installDir, HOST_FILENAME), HOST_TYPE, key, [entry]))
  }

  /**
   * The module-level manifest templates. `dict(template)` is a shallow copy, so
   * the manifest's allowed list is the template's own list and `append` grows it.
   */
  class Installer {
    var chromeAllowedOrigins: seq<string>
    var firefoxAllowedExtensions: seq<string>

    constructor ()
      ensures chromeAllowedOrigins == [] && firefoxAllowedExtensions == []
    {
      chromeAllowedOrigins := [];
      firefoxAllowedExtensions := [];
    }

    /** `install_host`'s manifest construction (the file copies and writes are not modelled). */
    method InstallHost(id: string, installDir: string, firefox: bool) returns (manifest: Manifest)
      modifies this
      ensures firefox ==> firefoxAllowedExtensions == old(firefoxAllowedExtensions) + [id]
                          && chromeAllowedOrigins == old(chromeAllowedOrigins)
      ensures !firefox ==> chromeAllowedOrigins == old(chromeAllowedOrigins) + [ChromeOrigin(id)]
                           && firefoxAllowedExtensions == old(firefoxAllowedExtensions)
      ensures manifest == Manifest(HOST_NAME, HOST_DESCRIPTION, PathJoin(installDir, HOST_FILENAME), HOST_TYPE,
                                   if firefox then "allowed_extensions" else "allowed_origins",
                                   if firefox then firefoxAllowedExtensions else chromeAllowedOrigins)
    {
      var hostPath := PathJoin(installDir, HOST_FILENAME);
      if firefox {
        firefoxAllowedExtensions := firefoxAllowedExtensions + [id];
        manifest := Manifest(HOST_NAME, HOST_DESCRIPTION, hostPath, HOST_TYPE, "allowed_extensions", firefoxAllowedExtensions);
      } else {
        chromeAllowedOrigins := chromeAllowedOrigins + [ChromeOrigin(id)];
        manifest := Manifest(HOST_NAME, HOST_DESCRIPTION, hostPath, HOST_TYPE, "allowed_origins", chromeAllowedOrigins);
      }
    }

    /** `main_install`: the id check for Chrome, then `install_host`. */
    method MainInstall(id: string, installDir: string, firefox: bool) returns (r: Result<Manifest>)
      modifies this
      ensures r.Err? <==> !firefox && !ValidChromeExtensionId(id)
      ensures r.Err? ==> r.message == "Not valid extension ID: " + id
                         && chromeAllowedOrigins == old(chromeAllowedOrigins)
                         && firefoxAllowedExtensions == old(firefoxAllowedExtensions)
      ensures r.Ok? && firefox ==>
                firefoxAllowedExtensions == old(firefoxAllowedExtensions) + [id]
                && chromeAllowedOrigins == old(chromeAllowedOrigins)
      ensures r.Ok? && !firefox ==>
                chromeAllowedOrigins == old(chromeAllowedOrigins) + [ChromeOrigin(id)]
                && firefoxAllowedExtensions == old(firefoxAllowedExtensions)
      ensures r.Ok? ==> r.value == Manifest(HOST_NAME, HOST_DESCRIPTION, PathJoin(installDir, HOST_FILENAME), HOST_TYPE,
                                               if firefox then "allowed_extensions" else "allowed_origins",
                                               if firefox then firefoxAllowedExtensions else chromeAllowedOrigins)
    {
      if !firefox && !ValidChromeExtensionId(id) {
        return Err("Not valid extension ID: " + id);
      }
      var manifest := InstallHost(id, installDir, firefox);
      r := Ok(manifest);
    }
  }

  /** One run of the installer process: the templates start empty, so the list holds one entry. */
  method RunInstall(id: string, installDir: string, firefox: bool) returns (r: Result<Manifest>)
    ensures r == Install(id, installDir, firefox)
  {
    var installer := new Installer();
    r := installer.MainInstall(id, installDir, firefox);
    if r.Ok? {
      assert installer.chromeAllowedOrigins == if firefox then [] else [ChromeOrigin(id)];
      assert installer.firefoxAllowedExtensions == if firefox then [id] else [];
    }
  }
}

module HostSetupProperties {
  import opened Common
  import opened HostSetup

  /** Writes hexadecimal digit values with the letters a..p, as Chrome does for extension ids. */
  function ShiftHex(digits: seq<int>): (id: string)
    requires forall i :: 0 <= i < |digits| ==> 0 <= digits[i] < 16
    ensures |id| == |digits|
    ensures forall i :: 0 <= i < |digits| ==> id[i] as int == 97 + digits[i]
  {
    if digits == [] then [] else [(97 + digits[0]) as char] + ShiftHex(digits[1..])
  }

  /** The digit values of a string written with a..p. */
  function HexDigits(id: string): (digits: seq<int>)
    ensures |digits| == |id|
    ensures forall i :: 0 <= i < |id| ==> digits[i] == id[i] as int - 97
  {
    if id == [] then [] else [id[0] as int - 97] + HexDigits(id[1..])
  }

  /** Every valid id is 32 hexadecimal digits written with a..p. */
  lemma ValidIdsAreShiftedHex(id: string)
    ensures ValidChromeExtensionId(id) <==>
            |id| == 32 && (forall i :: 0 <= i < |id| ==> 0 <= HexDigits(id)[i] < 16) && ShiftHex(HexDigits(id)) == id
  {
  }

  /** Every 32 hexadecimal digits written with a..p form a valid id, and reading them back recovers the digits. */
  lemma ShiftedHexIsValid(digits: seq<int>)
    requires |digits| == 32 && forall i :: 0 <= i < |digits| ==> 0 <= digits[i] < 16
    ensures ValidChromeExtensionId(ShiftHex(digits))
    ensures HexDigits(ShiftHex(digits)) == digits
  {
  }

  /** The Chrome origin gives back the extension id it was built from. */
  lemma OriginRoundTrip(id: string)
    ensures ExtensionIdOfOrigin(ChromeOrigin(id)) == Some(id)
  {
    var o := ChromeOrigin(id);
    assert o[..19] == CHROME_ORIGIN_PREFIX;
    assert o[19..|o| - 1] == id;
  }

  /** A Chrome install accepts exactly the valid ids and allows exactly that extension. */
  lemma ChromeManifestAllowsOnlyThatExtension(id: string, installDir: string)
    ensures Install(id, installDir, false).Ok? <==> ValidChromeExtensionId(id)
    ensures Install(id, installDir, false).Ok? ==>
              |Install(id, installDir, false).value.allowed| == 1
              && ExtensionIdOfOrigin(Install(id, installDir, false).value.allowed[0]) == Some(id)
  {
    OriginRoundTrip(id);
  }

  /** Firefox skips the check: its default id, which a Chrome install would refuse, is accepted. */
  lemma FirefoxSkipsIdCheck(installDir: string)
    ensures Install(FIREFOX_EXT_ID, installDir, true) ==
            Ok(Manifest(HOST_NAME, HOST_DESCRIPTION, PathJoin(installDir, HOST_FILENAME), HOST_TYPE,
                        "allowed_extensions", [FIREFOX_EXT_ID]))
    ensures Install(FIREFOX_EXT_ID, installDir, false) == Err("Not valid extension ID: " + FIREFOX_EXT_ID)
  {
    assert |FIREFOX_EXT_ID| == 25;
  }

  /** Hexadecimal as printed (with 0-9) is refused, and so is an id one character short. */
  lemma HexAndShortIdsRefused()
    ensures !ValidChromeExtensionId("0123456789abcdef0123456789abcdef")
    ensures !ValidChromeExtensionId("abcdefghijklmnopabcdefghijklmno")
    ensures ValidChromeExtensionId("abcdefghijklmnopabcdefghijklmnop")
  {
    assert "0123456789abcdef0123456789abcdef"[0] == '0';
  }

  /** The host script goes into the install directory. */
  lemma HostPathInInstallDir(dir: string)
    requires dir != [] && dir[|dir| - 1] != '/'
    ensures PathJoin(dir, HOST_FILENAME) == dir + "/" + HOST_FILENAME
  {
  }
}
