/**
 * The plugin's Domain value object: the version and main-file path given to
 * its constructor, the basename, directory path and directory URL that
 * WordPress derives from that file, and the locations built from them.
 */
module Domains {

  const ASSETS_DIR := "assets/dist/"
  const TEMPLATES_DIR := "templates/"

  datatype Domain = Domain(
    version: string,
    file: string,
    basename: string,
    path: string,
    url: string)
  {
    /** The plugin directory's path, as the constructor stored it. */
    function Path(): (p: string) ensures p == path { path }
    /** The plugin directory's URL, as the constructor stored it. */
    function Url(): (u: string) ensures u == url { url }
    /** The built assets' URL: the plugin URL followed by `assets/dist/`. */
    function AssetsUrl(): (u: string)
      ensures |u| == |url| + |ASSETS_DIR| && u[..|url|] == url && u[|url|..] == ASSETS_DIR
    {
      url + ASSETS_DIR
    }
    /** The built assets' directory: the plugin path followed by `assets/dist/`. */
    function AssetsPath(): (p: string)
      ensures |p| == |path| + |ASSETS_DIR| && p[..|path|] == path && p[|path|..] == ASSETS_DIR
    {
      path + ASSETS_DIR
    }
    /** The plugin version given to the constructor. */
    function Version(): (v: string) ensures v == version { version }
    /** The plugin's main file given to the constructor. */
    function File(): (f: string) ensures f == file { file }
    /** The plugin's basename, as the constructor derived it. */
    function Basename(): (b: string) ensures b == basename { basename }
    /** The templates directory: the plugin path followed by `templates/`. */
    function TemplatePath(): (p: string)
      ensures |p| == |path| + |TEMPLATES_DIR| && p[..|path|] == path && p[|path|..] == TEMPLATES_DIR
    {
      path + TEMPLATES_DIR
    }
    /** Built from the directory path, not the URL, exactly as the plugin does. */
    function TemplateUrl(): (u: string)
      ensures |u| == |path| + |TEMPLATES_DIR| && u[..|path|] == path && u[|path|..] == TEMPLATES_DIR
    {
      path + TEMPLATES_DIR
    }
    /** The templates URL as documented: the templates directory under the plugin's URL. */
    function CorrectedTemplateUrl(): (u: string)
      ensures |u| == |url| + |TEMPLATES_DIR| && u[..|url|] == url && u[|url|..] == TEMPLATES_DIR
    {
      url + TEMPLATES_DIR
    }
  }

  /**
   * The constructor. `pluginBasename`, `pluginDirPath` and `pluginDirUrl`
   * stand for WordPress's plugin_basename, plugin_dir_path and plugin_dir_url.
   */
  function NewDomain(
    version: string,
    file: string,
    pluginBasename: string -> string,
    pluginDirPath: string -> string,
    pluginDirUrl: string -> string): (d: Domain)
    ensures d.Version() == version && d.File() == file
    ensures d.Basename() == pluginBasename(file)
    ensures d.Path() == pluginDirPath(file) && d.Url() == pluginDirUrl(file)
  {
    Domain(version, file, pluginBasename(file), pluginDirPath(file), pluginDirUrl(file))
  }

  /**
   * The assets and templates locations lie directly under the plugin's
   * directory (path or URL), and the two sub-directories never coincide.
   */
  lemma DerivedLocations(d: Domain)
    ensures d.AssetsPath()[..|d.Path()|] == d.Path() && d.AssetsPath()[|d.Path()|..] == ASSETS_DIR
    ensures d.AssetsUrl()[..|d.Url()|] == d.Url() && d.AssetsUrl()[|d.Url()|..] == ASSETS_DIR
    ensures d.TemplatePath()[..|d.Path()|] == d.Path() && d.TemplatePath()[|d.Path()|..] == TEMPLATES_DIR
    ensures d.AssetsPath() != d.TemplatePath()
  {
    assert d.AssetsPath()[|d.Path()|] == 'a';
    assert d.TemplatePath()[|d.Path()|] == 't';
  }

  /**
   * The template "URL" is the template path: it equals TemplatePath() and
   * does not depend on the plugin's URL at all.
   */
  lemma TemplateUrlIsTemplatePath(d: Domain, otherUrl: string)
    ensures d.TemplateUrl() == d.TemplatePath()
    ensures d.(url := otherUrl).TemplateUrl() == d.TemplateUrl()
  {
  }

  /**
   * The templates URL as written is not a URL: for a plugin in `/srv/p/`
   * served from `https://x.test/p/` it gives the file-system directory.
   */
  lemma TemplateUrlIsNotUnderUrl()
    ensures var d := Domain("1.0", "/srv/p/update-php.php", "update-php/update-php.php", "/srv/p/", "https://x.test/p/");
      d.TemplateUrl() == "/srv/p/templates/"
      && !(|d.Url()| <= |d.TemplateUrl()| && d.TemplateUrl()[..|d.Url()|] == d.Url())
  {
    var d := Domain("1.0", "/srv/p/update-php.php", "update-php/update-php.php", "/srv/p/", "https://x.test/p/");
    assert d.TemplateUrl()[0] == '/' != d.Url()[0];
  }

  /** The corrected templates URL lies directly under the plugin's URL, beside the assets URL. */
  lemma CorrectedTemplateUrlIsUnderUrl(d: Domain)
    ensures d.CorrectedTemplateUrl()[..|d.Url()|] == d.Url() && d.CorrectedTemplateUrl()[|d.Url()|..] == TEMPLATES_DIR
    ensures d.CorrectedTemplateUrl() != d.AssetsUrl()
  {
    assert d.CorrectedTemplateUrl()[|d.Url()|] == 't';
    assert d.AssetsUrl()[|d.Url()|] == 'a';
  }
}
