/**
 * Asset registration: the build manifest (chunk file name to built file
 * name, plus the `url_base` the registration sets), the lookup of an asset's
 * URL in it with a fall-back to the chunk name, and the registration of the
 * blocks script as carrying translations.
 */
module AssetRegistration {
  import Domains
  import I18n

  const JS_HANDLE_BLOCKS := "wp-update-php-blocks-js"
  const CSS_HANDLE_BLOCKS := "wp-update-php-blocks-css"
  const FILE_NAME_BUILD_MANIFEST := "build-manifest.json"
  const TYPE_JS := "js"
  const TYPE_CSS := "css"
  const URL_BASE := "url_base"
  const BLOCKS_CHUNK := "update-php-blocks"

  type Manifest = map<string, string>

  /**
   * The URL of a chunk's asset of one type: the manifest's `url_base`
   * followed by the manifest's file for "chunk.type" when both keys are
   * present, and the chunk name itself otherwise.
   */
  function AssetUrl(manifest: Manifest, chunkName: string, assetType: string): (url: string)
    ensures chunkName + "." + assetType in manifest && URL_BASE in manifest ==>
      url == manifest[URL_BASE] + manifest[chunkName + "." + assetType]
    ensures !(chunkName + "." + assetType in manifest && URL_BASE in manifest) ==> url == chunkName
  {
    var key := chunkName + "." + assetType;
    if key in manifest && URL_BASE in manifest then manifest[URL_BASE] + manifest[key] else chunkName
  }

  /** The manifest once registered: the decoded file, with `url_base` forced to the assets URL. */
  function RegisteredManifest(decoded: Manifest, assetsUrl: string): (m: Manifest)
    ensures URL_BASE in m && m[URL_BASE] == assetsUrl
    ensures m.Keys == decoded.Keys + {URL_BASE}
    ensures forall key :: key in decoded && key != URL_BASE ==> m[key] == decoded[key]
  {
    decoded[URL_BASE := assetsUrl]
  }

  /**
   * After registration every asset listed in the file resolves under the
   * plugin's assets URL, whatever `url_base` the file itself held, and an
   * unlisted one falls back to its chunk name.
   */
  lemma RegisteredAssetUrl(decoded: Manifest, assetsUrl: string, chunkName: string, assetType: string)
    ensures var key := chunkName + "." + assetType;
      AssetUrl(RegisteredManifest(decoded, assetsUrl), chunkName, assetType)
      == if key in decoded then assetsUrl + decoded[key] else chunkName
  {
    var key := chunkName + "." + assetType;
    assert key != URL_BASE by {
      assert key[|chunkName|] == '.';
      assert '.' !in URL_BASE;
    }
  }

  /** Before any manifest is registered the data is empty and every lookup falls back to the chunk name. */
  lemma NoManifestFallsBack(chunkName: string, assetType: string)
    ensures AssetUrl(map[], chunkName, assetType) == chunkName
  {
  }

  /** What `wp_register_script` is given for the blocks script. */
  datatype ScriptRegistration = ScriptRegistration(handle: string, src: string, deps: seq<string>, inFooter: bool)

  class AssetRegistration {
    const domain: Domains.Domain
    const i18nRegistry: I18n.Registry
    /** Empty until a manifest is registered (the PHP property starts out null). */
    var manifestData: Manifest

    constructor(domain: Domains.Domain, i18nRegistry: I18n.Registry)
      ensures this.domain == domain && this.i18nRegistry == i18nRegistry
      ensures manifestData == map[]
    {
      this.domain := domain;
      this.i18nRegistry := i18nRegistry;
      manifestData := map[];
    }

    /**
     * `readManifest` gives the decoded content of the JSON file at a path; a
     * file that does not decode to an object gives the empty map.
     */
    method RegisterManifest(readManifest: string -> Manifest)
      modifies this
      ensures manifestData == RegisteredManifest(readManifest(domain.AssetsPath() + FILE_NAME_BUILD_MANIFEST), domain.AssetsUrl())
    {
      manifestData := DecodeManifestFile(domain.AssetsPath() + FILE_NAME_BUILD_MANIFEST, readManifest);
      manifestData := manifestData[URL_BASE := domain.AssetsUrl()];
    }

    /** The decoded build manifest of the file at exactly the given path, with nothing added. */
    function DecodeManifestFile(manifestFilePath: string, readManifest: string -> Manifest): (m: Manifest)
      ensures m == readManifest(manifestFilePath)
    {
      readManifest(manifestFilePath)
    }

    /** The URL of a chunk's script. */
    function GetJsUrl(chunkName: string): (url: string)
      reads this
      ensures chunkName + "." + TYPE_JS in manifestData && URL_BASE in manifestData ==>
        url == manifestData[URL_BASE] + manifestData[chunkName + "." + TYPE_JS]
      ensures !(chunkName + "." + TYPE_JS in manifestData && URL_BASE in manifestData) ==> url == chunkName
    {
      GetAssetUrl(chunkName, TYPE_JS)
    }

    /** The URL of a chunk's stylesheet. */
    function GetCssUrl(chunkName: string): (url: string)
      reads this
      ensures chunkName + "." + TYPE_CSS in manifestData && URL_BASE in manifestData ==>
        url == manifestData[URL_BASE] + manifestData[chunkName + "." + TYPE_CSS]
      ensures !(chunkName + "." + TYPE_CSS in manifestData && URL_BASE in manifestData) ==> url == chunkName
    {
      GetAssetUrl(chunkName, TYPE_CSS)
    }

    /** The URL of the current manifest's asset, as `AssetUrl` defines it. */
    function GetAssetUrl(chunkName: string, assetType: string): (url: string)
      reads this
      ensures chunkName + "." + assetType in manifestData && URL_BASE in manifestData ==>
        url == manifestData[URL_BASE] + manifestData[chunkName + "." + assetType]
      ensures !(chunkName + "." + assetType in manifestData && URL_BASE in manifestData) ==> url == chunkName
    {
      AssetUrl(manifestData, chunkName, assetType)
    }

    /** Registers the script as having translations, under the registry's default domain. */
    method RegisterTranslation(scriptHandle: string)
      modifies i18nRegistry
      ensures i18nRegistry.State() == I18n.Register(old(i18nRegistry.State()), scriptHandle, I18n.DEFAULT_DOMAIN)
    {
      i18nRegistry.RegisterScriptI18n(scriptHandle);
    }

    /**
     * The callback on the script-enqueue hooks: registers the manifest, then
     * the blocks script (returned as what `wp_register_script` is given) and
     * its translations. There are no styles yet.
     */
    method RegisterScriptsAndStyles(readManifest: string -> Manifest) returns (script: ScriptRegistration)
      modifies this, i18nRegistry
      ensures manifestData == RegisteredManifest(readManifest(domain.AssetsPath() + FILE_NAME_BUILD_MANIFEST), domain.AssetsUrl())
      ensures script == ScriptRegistration(JS_HANDLE_BLOCKS, AssetUrl(manifestData, BLOCKS_CHUNK, TYPE_JS), ["wp-blocks"], true)
      ensures i18nRegistry.State() == I18n.Register(old(i18nRegistry.State()), JS_HANDLE_BLOCKS, I18n.DEFAULT_DOMAIN)
    {
      RegisterManifest(readManifest);
      script := RegisterScripts();
    }

    method RegisterScripts() returns (script: ScriptRegistration)
      modifies i18nRegistry
      ensures script == ScriptRegistration(JS_HANDLE_BLOCKS, AssetUrl(manifestData, BLOCKS_CHUNK, TYPE_JS), ["wp-blocks"], true)
      ensures i18nRegistry.State() == I18n.Register(old(i18nRegistry.State()), JS_HANDLE_BLOCKS, I18n.DEFAULT_DOMAIN)
    {
      script := ScriptRegistration(JS_HANDLE_BLOCKS, GetJsUrl(BLOCKS_CHUNK), ["wp-blocks"], true);
      RegisterTranslation(JS_HANDLE_BLOCKS);
    }
  }
}
