# update-php, modelled in Dafny

This is a Dafny model of the core of the *update-php* WordPress plugin. The plugin provides a "PHP Version Detection
Content" block. The server renders the block's out-of-date variant or its up-to-date variant. The choice depends on a
detected PHP version, taken from the request, compared against a minimum the author configured. In the block editor,
the author edits both variants and previews one of them.

The model covers five parts of the plugin:

- **Domains** (`domain.dfy`): the plugin's immutable value object. It holds the version, the main file, and the
  basename, directory path and directory URL that WordPress derives from that file. It also builds the assets and
  templates locations.
- **BlockRegistration** (`block_registration.dfy`): the block's render callback, which is pure. It reads the
  detected version, selects a variant with `>=`, builds the template data with three keys, and renders. It also holds
  the declared attribute schema and its defaults.
- **I18n** (`i18n_registry.dfy`): the translation registry. The `Registry` class updates its three collections in
  place, and its methods are proved against pure transitions on a `RegistryState`. Those transitions carry the
  properties: registration is idempotent; draining removes exactly the drained handles from the queue, and every other
  queued handle stays, with its domain; kept entries are never lost or reordered; and an invariant is preserved. The class also builds the Jed locale data that is kept for each script.
- **AssetRegistration** (`asset_registration.dfy`): a class that holds the build manifest. It forces the manifest's
  `url_base` to the assets URL, looks up asset URLs with a fall-back to the chunk name, and registers the blocks
  script together with its translations.
- **BlockEditor** (`block_editor.dfy`): the editor component. Its attribute state is a record inside a class, and its
  setters are merges through the editor's `setAttributes`. It also holds the offered minimum versions, the help texts
  and the preview. Each of these is tied back to what the server renders.

Helper modules:

- `Php` (`php.dfy`) holds PHP's string truthiness, `addslashes` (which is what `wp_slash` does to strings),
  `array_filter` and `array_unique`.
- `Versions` (`versions.dfy`) holds the comparison of versions made only of digits and dots.
- `Wrappers` (`wrappers.dfy`) holds `Option`.

Code the model cannot see becomes a function parameter:

- `version_compare( … , '>=' )` becomes `ge`.
- The Mustache renderer becomes `render`.
- `sanitize_text_field( wp_unslash( … ) )` becomes `clean`.
- The locale, the translations loaded for a text domain and `wp_json_encode` are bundled in `Environment`.
- The decoded JSON files become `readManifest` and `readTranslationMap`.
- `plugin_basename`, `plugin_dir_path` and `plugin_dir_url` become plain parameters too.

WordPress's side effects are returned rather than performed:

- `wp_add_inline_script` becomes the returned `InlineScript`s.
- `wp_register_script` becomes the returned `ScriptRegistration`.

The model leaves `version_compare` abstract, so lemmas about variant selection hold for any total preorder `ge`.
`Versions` supplies the comparator on digit-and-dot versions and proves that it is a total preorder. It compares
components numerically from left to right. It does not pad with zeros: when one version is a proper prefix of the
other, the shorter one ranks below ("5.3" sorts before "5.3.0"), which is the rule of PHP's `version_compare` for
such versions. A zero-padding rule would make those two equal, and the model does not follow it. Components are
unbounded naturals, whereas PHP reads each one into a machine integer; the section "Left out" gives the difference.

## Model

| member | source | states |
|---|---|---|
| Domains.NewDomain | src/class-domain.php:66-72 | the version and file are kept as given; the basename, path and URL are what WordPress derives from the file |
| Domains.DerivedLocations | src/class-domain.php:97-108 | the assets path and URL sit directly under the plugin directory's path and URL, followed by `assets/dist/`; the templates path sits under the path, followed by `templates/`; the assets and templates paths never coincide |
| Domains.TemplateUrlIsTemplatePath | src/class-domain.php:142-153 | `template_url` equals `template_path` and does not depend on the plugin URL |
| Domains.TemplateUrlIsNotUnderUrl | src/class-domain.php:151-153 | as written, the templates "URL" for a plugin at `/srv/p/` served from `https://x.test/p/` is the directory `/srv/p/templates/`, which is not under the URL |
| Domains.CorrectedTemplateUrlIsUnderUrl | src/class-domain.php:146-153 | the corrected templates URL is the plugin URL followed by `templates/`, and it differs from the assets URL |
| Domains.Domain.Path | src/class-domain.php:79-81 | the path is the plugin directory path derived at construction |
| Domains.Domain.Url | src/class-domain.php:88-90 | the URL is the plugin directory URL derived at construction |
| Domains.Domain.AssetsUrl | src/class-domain.php:97-99 | the assets URL starts with the plugin URL, and what follows it is exactly `assets/dist/` |
| Domains.Domain.AssetsPath | src/class-domain.php:106-108 | the assets path starts with the plugin path, and what follows it is exactly `assets/dist/` |
| Domains.Domain.Version | src/class-domain.php:115-117 | the version is the one given at construction |
| Domains.Domain.File | src/class-domain.php:124-126 | the file is the one given at construction |
| Domains.Domain.Basename | src/class-domain.php:133-135 | the basename is the one derived from the file at construction |
| Domains.Domain.TemplatePath | src/class-domain.php:142-144 | the templates path starts with the plugin path, and what follows it is exactly `templates/` |
| Domains.Domain.TemplateUrl | src/class-domain.php:151-153 | as written, the "templates URL" starts with the plugin path, not the URL, followed by `templates/` |
| Domains.Domain.CorrectedTemplateUrl | src/class-domain.php:146-153 | the intended templates URL starts with the plugin URL, and what follows it is exactly `templates/` |
| Php.AddSlashes | src/class-i18n-registry.php:210 | slashing never shortens a string; it keeps the length exactly when the string has no quote, backslash or NUL, and such a string comes back unchanged |
| Php.AddSlashesInjective | src/class-i18n-registry.php:208-212 | distinct strings slash to distinct strings, so slashing before `array_flip` merges no two original strings |
| Php.AddSlashesKeepsTruthiness | src/class-i18n-registry.php:210 | a string is falsy after slashing exactly when it was falsy before |
| Php.SlashAll | src/class-i18n-registry.php:210 | `wp_slash` on a list slashes every element in place and keeps the length |
| Php.SlashAllMembers | src/class-i18n-registry.php:210 | a string is in the slashed list exactly when it is the slashed form of some original string |
| Php.FilterFalsy | src/class-i18n-registry.php:210 | `array_filter` keeps exactly the truthy elements |
| Php.Unique | src/class-i18n-registry.php:210 | `array_unique` keeps the same elements, each once |
| Versions.Split | src/class-block-registration.php:116 | splitting a version on '.' gives at least one component, and no component contains '.' |
| Versions.JoinSplit | src/class-block-registration.php:116 | joining the split components with '.' gives back the version |
| Versions.SplitJoin | src/class-block-registration.php:116 | splitting joined dot-free components gives back the components |
| Versions.Components | src/class-block-registration.php:116 | a version has numeric components exactly when every component is a non-empty run of digits |
| Versions.Compare | src/class-block-registration.php:116 | a comparison is `Less` exactly when the first component list ranks lexicographically below the second, a proper prefix ranking below |
| Versions.AtLeast | src/class-block-registration.php:116 | `>=` holds exactly when the detected version's components do not rank lexicographically below the minimum's |
| Versions.CompareEqualIff | src/class-block-registration.php:116 | two component lists compare equal exactly when they are the same list |
| Versions.CompareFlip | src/class-block-registration.php:116 | swapping the operands reverses the comparison |
| Versions.CompareLessTransitive | src/class-block-registration.php:116 | "less than" on component lists is transitive |
| Versions.ProperPrefixIsLess | src/class-block-registration.php:116 | a proper prefix ranks below the longer version, with no zero padding |
| Versions.AgreesAt | src/class-block-registration.php:116 | a `>=` that agrees with the model on digit-and-dot versions decides any two such versions as `AtLeast` does |
| Versions.AtLeastIsTotalPreorder | src/class-block-registration.php:116 | `>=` on numeric versions is reflexive, total and transitive |
| Versions.ExtendedAtLeastIsTotalPreorder | src/class-block-registration.php:116 | a comparator exists that agrees with `>=` on numeric versions and is a total preorder on every string, so the lemmas that assume one can be instantiated |
| Versions.CompareExamples | src/class-block-registration.php:116 | "7.2" >= "5.3", "5.3" < "7.2", "5.3" >= "5.3", and "5.2" < "5.3" |
| Versions.PrefixExamples | src/class-block-registration.php:116 | "5.3" ranks below "5.3.0" and "5.3.1", and "5.3.0" >= "5.3" |
| BlockRegistration.GetTemplateData | src/class-block-registration.php:145-161 | the template data has exactly the keys title, body and emphasis; each holds the variant's attribute for that slot when it is set, and '' otherwise |
| BlockRegistration.RenderVersionDetectedContent | src/class-block-registration.php:107-119 | a falsy detected version renders ''; otherwise the output is the rendered template data of the variant that `>=` against the minimum selects (the minimum counts as '' when unset) |
| BlockRegistration.TemplateDataIgnoresOtherKeys | src/class-block-registration.php:145-161 | changing any attribute other than the variant's three slots leaves that variant's template data unchanged |
| BlockRegistration.TemplateDataOnlyFromVariant | src/class-block-registration.php:145-161 | the minimum, the preview flag and the other variant's fields never reach the selected variant's template data |
| BlockRegistration.OutputDependsOnlyOnSelection | src/class-block-registration.php:107-135 | two blocks whose minimums compare alike against the detected version, and which agree on the selected variant's slots, render the same |
| BlockRegistration.DetectedVersionFromRequestOnly | src/class-block-registration.php:225-229 | the detected version comes from the request's `php_version` value alone; requests that agree on it render the same |
| BlockRegistration.UpToDateIsUpwardClosed | src/class-block-registration.php:116-118 | for any total preorder, a version at least as high as one shown the up-to-date content is shown the same content |
| BlockRegistration.RaisingMinimumOnlyDemotes | src/class-block-registration.php:116-118 | for any total preorder, raising the minimum never moves a version from out-of-date to up-to-date |
| BlockRegistration.SelectionExamples | src/class-block-registration.php:116-118 | with a minimum of "5.6", "7.2" selects the up-to-date variant and "5.4" the out-of-date one |
| BlockRegistration.SchemaShape | src/class-block-registration.php:62-95 | the schema declares the minimum (string, default "5.3"), the preview flag (boolean, default false) and the six content fields; each default has its declared type |
| BlockRegistration.DefaultMinimum | src/class-block-registration.php:62-65 | a block left at its defaults compares against the minimum "5.3" |
| BlockRegistration.DefaultTemplateData | src/class-block-registration.php:62-95 | a block left at its defaults has the minimum "5.3" and the default title, body and emphasis for each variant |
| BlockRegistration.DefaultSelection | src/class-block-registration.php:65 | under the default minimum, "7.2" is up to date and "5.2" is not |
| BlockRegistration.DefaultBlockRendering | src/class-block-registration.php:107-218 | a block left at its defaults renders the "GREAT NEWS!" content for PHP 7.2 and the "WARNING" content for PHP 5.2 |
| BlockRegistration.GetPhpVersion | src/class-block-registration.php:225-229 | the detected version is the cleaned request value when the request has the key, and the empty string otherwise |
| BlockRegistration.RenderContent | src/class-block-registration.php:130-135 | the output is the renderer applied to the chosen variant's template data and the `update-php-block` template |
| BlockRegistration.AttributeSchema | src/class-block-registration.php:62-95 | the minimum is a string defaulting to `5.3`, the preview flag a boolean defaulting to false, and every default has its declared type |
| BlockRegistration.MinimumUpToDateVersion | src/class-block-registration.php:109-111 | the minimum is the attribute's value when it is set, and the empty string otherwise |
| BlockRegistration.SelectedTemplateType | src/class-block-registration.php:116-118 | the up-to-date variant is chosen exactly when the detected version is `>=` the minimum, the out-of-date one exactly otherwise |
| I18n.JedLocaleData | src/class-i18n-registry.php:235-254 | the locale data has the header under '' plus every entry under its msgid, holding that entry's translations |
| I18n.GetLocaleDataMatchingMap | src/class-i18n-registry.php:204-213 | an empty list gives nothing; otherwise the result keeps exactly the entries whose key is a slashed, truthy listed string, with values unchanged |
| I18n.WantedKeysOfPipeline | src/class-i18n-registry.php:210-212 | the keys that `array_flip` gives from the filtered, slashed, deduplicated list are exactly the slashed truthy strings |
| I18n.SlashedStringMissesOwnMsgid | src/class-i18n-registry.php:208-212 | a listed string holding a quote, backslash or NUL never selects a msgid equal to itself, because only its slashed form is looked up |
| I18n.MatchingMapKeysAreSlashed | src/class-i18n-registry.php:204-213 | every kept msgid is the slashed form of a truthy listed string |
| I18n.ChunkLocaleData | src/class-i18n-registry.php:182-193 | the data kept for a script is non-empty and holds the full data's header under ''; its other keys are exactly the matched entries, with values unchanged |
| I18n.HandleLocaleDataHeader | src/class-i18n-registry.php:182-193 | a handle's kept data carries the header of its domain's full data (domain, locale, and Plural-Forms when non-empty); every other key is a loaded entry with that entry's translations |
| I18n.Put | src/class-i18n-registry.php:144-147 | assigning to a handle that has no entry yet appends the entry at the end |
| I18n.PutFind | src/class-i18n-registry.php:144-147 | after the assignment the handle finds the new entry, and every other handle finds what it found before |
| I18n.RegisterIdempotent | src/class-i18n-registry.php:82-87 | registering is idempotent per handle: a repeat, even with another domain, changes nothing, and the first domain stays queued |
| I18n.Find | src/class-i18n-registry.php:144-147 | a found entry is in the list under that handle; no entry found means no entry in the list has that handle |
| I18n.Register | src/class-i18n-registry.php:82-87 | the handle is now registered; a new handle is queued with its domain, and a known one changes nothing; kept entries stay |
| I18n.QueueForHandle | src/class-i18n-registry.php:139-151 | the handle leaves the queue and every other queued handle stays; the registered set stays; an unqueued handle changes nothing |
| I18n.QueueHandles | src/class-i18n-registry.php:101-103 | processing handles keeps the registered set and never adds a handle to the queue |
| I18n.QueueI18nResult | src/class-i18n-registry.php:97-115 | with an empty queue nothing changes and no script is attached; otherwise the state is the handles processed in order, with one inline script per kept entry, in order |
| I18n.InlineScriptText | src/class-i18n-registry.php:126-131 | the script starts with `wp.i18n.setLocaleData( ` and the encoded data, and is followed by ` );` exactly when the domain is falsy; a truthy domain follows as a quoted second argument, `, "domain" );` |
| I18n.LocaleHeader | src/class-i18n-registry.php:238-247 | the header holds the domain and language, and a plural-forms value exactly when the translations carry a truthy `Plural-Forms` header, with that value |
| I18n.Registry.RegisterScriptI18n | src/class-i18n-registry.php:82-87 | the registry's new state is the registration transition of its old state |
| I18n.QueueForHandleStep | src/class-i18n-registry.php:139-151 | one handle processed leaves the queue; the registered set and every other queued handle stay |
| I18n.QueueForHandleEntries | src/class-i18n-registry.php:139-151 | a queued handle's entry is its domain and its locale data; other handles' entries do not change; an unqueued handle changes nothing |
| I18n.Registry.QueueTranslationsForHandle | src/class-i18n-registry.php:139-151 | the new state is the one-handle transition of the old state |
| I18n.QueueHandlesKeepsRegistered | src/class-i18n-registry.php:101-103 | draining handles never changes the registered set |
| I18n.QueueHandlesDrains | src/class-i18n-registry.php:101-103 | after draining, a handle is queued exactly when it was queued before and was not among those drained, and it keeps its domain |
| I18n.QueueHandlesKeepsEntries | src/class-i18n-registry.php:101-103 | every drained handle that was queued ends with the entry for the domain it was queued under |
| I18n.QueueHandlesKeepsOldEntries | src/class-i18n-registry.php:101-103 | no entry kept before is lost while draining |
| I18n.QueueHandlesPreservesInv | src/class-i18n-registry.php:82-151 | draining keeps the invariant: queued and kept handles are registered, never both queued and kept, and kept at most once |
| I18n.RegisterPreservesInv | src/class-i18n-registry.php:82-87 | registering keeps the invariant |
| I18n.QueueForHandlePreservesInv | src/class-i18n-registry.php:139-151 | processing one handle keeps the invariant: kept handles are registered and no longer queued, and no handle is kept twice |
| I18n.QueueForHandleAppends | src/class-i18n-registry.php:139-151 | when the handle has no kept entry yet, the old kept entries are a prefix of the new ones |
| I18n.InitialStateInv | src/class-i18n-registry.php:34-49 | the empty start state satisfies the invariant |
| I18n.QueueHandlesAppends | src/class-i18n-registry.php:101-103 | under the invariant, draining only appends: the old kept list is a prefix of the new one |
| I18n.DrainedHandleNeverRequeued | src/class-i18n-registry.php:82-87 | once a call of `queue_i18n` with a non-empty queue has drained a registered handle, registering it again does not queue it |
| I18n.QueueI18nOnEmptyQueue | src/class-i18n-registry.php:98-100 | with nothing queued, `queue_i18n` changes nothing and attaches no script |
| I18n.QueueI18nEmitsEveryKeptHandle | src/class-i18n-registry.php:104-112 | with a non-empty queue, one script is attached for every kept entry, in order, earlier calls' entries included |
| I18n.Registry.QueueI18n | src/class-i18n-registry.php:97-115 | the handles come back unchanged; the new state and the attached scripts are those of the `queue_i18n` transition |
| I18n.Registry.RegisterInlineScripts | src/class-i18n-registry.php:104-112 | the scripts attached are one per kept entry, in the entries' order, each carrying that entry's handle, locale data and domain |
| I18n.Registry.RegisterInlineScript | src/class-i18n-registry.php:126-131 | the script goes on the given handle, before it, and is the `setLocaleData` call of the encoded data, with the domain argument only when the domain is truthy |
| I18n.Registry.GetJedLocaleDataForDomainAndChunk | src/class-i18n-registry.php:182-193 | the method computes the kept locale data of the handle's strings |
| I18n.Registry.GetOriginalStringsForHandleFromMap | src/class-i18n-registry.php:223-225 | a handle in the translation map gets its listed strings; any other handle gets none |
| I18n.Registry.GetJedLocaleData | src/class-i18n-registry.php:235-254 | the loop over the entries builds exactly the domain's Jed locale data |
| I18n.Registry.constructor | src/class-i18n-registry.php:69-71 | an empty map given to the constructor is replaced by the decoded `translation-map.json` in the plugin directory, or by an empty map; the registry starts empty |
| AssetRegistration.AssetUrl | src/class-asset-registration.php:156-163 | when both "chunk.type" and `url_base` are in the manifest, the URL is `url_base` followed by that file; otherwise it is the chunk name |
| AssetRegistration.RegisteredManifest | src/class-asset-registration.php:85-90 | the registered manifest is the decoded file with `url_base` set to the assets URL; every other key is kept |
| AssetRegistration.RegisteredAssetUrl | src/class-asset-registration.php:85-90 | after registration, a listed asset resolves to the assets URL followed by its file, whatever `url_base` the file held; an unlisted one falls back to the chunk name |
| AssetRegistration.NoManifestFallsBack | src/class-asset-registration.php:51 | before any registration, every lookup falls back to the chunk name |
| AssetRegistration.AssetRegistration.RegisterManifest | src/class-asset-registration.php:85-101 | the held manifest becomes the registered form of the decoded `build-manifest.json` from the assets path |
| AssetRegistration.AssetRegistration.DecodeManifestFile | src/class-asset-registration.php:99-101 | the manifest is the decoded content of the file at exactly the given path, with nothing added |
| AssetRegistration.AssetRegistration.GetJsUrl | src/class-asset-registration.php:131-133 | the script URL is the lookup of "chunk.js", with the chunk-name fall-back |
| AssetRegistration.AssetRegistration.GetCssUrl | src/class-asset-registration.php:143-145 | the stylesheet URL is the lookup of "chunk.css", with the chunk-name fall-back |
| AssetRegistration.AssetRegistration.GetAssetUrl | src/class-asset-registration.php:156-163 | the URL is the lookup in the held manifest, with the chunk-name fall-back |
| AssetRegistration.AssetRegistration.RegisterTranslation | src/class-asset-registration.php:170-172 | the script handle is registered with the i18n registry under the `update-php` domain |
| AssetRegistration.AssetRegistration.RegisterScriptsAndStyles | src/class-asset-registration.php:71-122 | the manifest is registered; then the blocks script is registered with its manifest URL, `wp-blocks` as dependency and in the footer; then its translations are registered |
| AssetRegistration.AssetRegistration.RegisterScripts | src/class-asset-registration.php:106-115 | the blocks script is registered at the manifest's URL for the blocks chunk, depending on `wp-blocks`, in the footer, and its handle is registered for translation under `update-php` |
| AssetRegistration.AssetRegistration.constructor | src/class-asset-registration.php:60-65 | the domain and the i18n registry are kept as given, and no manifest is held yet |
| BlockEditor.AttributeKeysMatchSchema | src/class-block-registration.php:62-95 | the editor's attributes carry exactly the keys the server declares |
| BlockEditor.Merge | assets/src/blocks/version-detector-content/block.js:81-83 | `setAttributes` with one key sets that key's value and keeps every other attribute |
| BlockEditor.VersionDetectorContent.SetAttributes | assets/src/blocks/version-detector-content/block.js:29-83 | the new attributes are the old ones with the patch merged in |
| BlockEditor.PreviewToggleTwice | assets/src/blocks/version-detector-content/block.js:29-33 | one toggle flips only the preview flag, and two toggles restore the attributes |
| BlockEditor.VersionDetectorContent.SetPreview | assets/src/blocks/version-detector-content/block.js:29-33 | the new attributes merge the negation of the old preview flag into the old attributes |
| BlockEditor.VersionDetectorContent.SetMinimumUpToDate | assets/src/blocks/version-detector-content/block.js:39-41 | only `minimumUpToDateVersion` changes, to the given value |
| BlockEditor.MinimumEditAsServerSees | assets/src/blocks/version-detector-content/block.js:39-41 | after setting the minimum, the server reads the new minimum, and neither variant's template data changes |
| BlockEditor.VersionDetectorContent.SetFieldAndValue | assets/src/blocks/version-detector-content/block.js:81-83 | the attributes, as the server receives them, change in exactly the given field |
| BlockEditor.ContentEditAsServerSees | assets/src/blocks/version-detector-content/block.js:81-83 | a content edit leaves the minimum alone; it changes a variant's template data only in the slot written |
| BlockEditor.SetBodyContent | assets/src/blocks/version-detector-content/block.js:49-52 | the body setter writes `outOfDateBody` when `outdated` (the default) and `upToDateBody` otherwise |
| BlockEditor.SetTitleContent | assets/src/blocks/version-detector-content/block.js:60-63 | the title setter writes `outOfDateTitle` when `outdated` and `upToDateTitle` otherwise |
| BlockEditor.SetEmphasisContent | assets/src/blocks/version-detector-content/block.js:71-74 | the emphasis setter writes `outOfDateEmphasis` when `outdated` and `upToDateEmphasis` otherwise |
| BlockEditor.SettersRouteToServerSlots | assets/src/blocks/version-detector-content/block.js:49-74 | one variant's three setters write three different attributes; the two variants never share one; each setter writes the attribute the server reads for that slot; the default flag is `outdated` |
| BlockEditor.VersionOptions | assets/src/blocks/version-detector-content/block.js:89-102 | there are seven options, 5.3, 5.4, 5.5, 5.6, 7.0, 7.1, 7.2 in that order, each with label equal to value |
| BlockEditor.AscendingFromNeighbours | assets/src/blocks/version-detector-content/block.js:90-98 | a list whose neighbours ascend strictly ascends throughout |
| BlockEditor.ComponentsOfOptions | assets/src/blocks/version-detector-content/block.js:90-98 | each offered version is numeric, with the expected two components |
| BlockEditor.VersionOptionsAscending | assets/src/blocks/version-detector-content/block.js:89-102 | every offered minimum is numeric, the offers strictly ascend under version comparison, and the lowest is the schema's default, "5.3" |
| BlockEditor.HelpTextMatchesServer | assets/src/blocks/version-detector-content/block.js:122-132 | each variant's help text gives exactly the condition under which the server's `>=` selects that variant: "less than" for the outdated variant, "equal to or greater than" for the up-to-date one |
| BlockEditor.GetContentHelpText | assets/src/blocks/version-detector-content/block.js:122-132 | the text names the condition its variant is shown under, and it says "less than" exactly for the out-of-date variant (the default) |
| BlockEditor.VersionDetectorContent.GetContentPreview | assets/src/blocks/version-detector-content/block.js:173-181 | a variant's preview is exactly the template data the server builds for that variant from the same attributes |
| BlockEditor.VersionDetectorContent.ShownPreviewMirrorsServer | assets/src/blocks/version-detector-content/block.js:223 | the preview the block shows, which `previewOutdatedContent` selects, is the content the server renders for any version on that side of the minimum |

## Findings

| source | as written | input that shows it | evidently intended | confidence | as-written member | corrected member |
|---|---|---|---|---|---|---|
| src/class-domain.php:151-153 | `template_url()` returns the directory path followed by `templates/`, which is the same value as `template_path()` | path `/srv/p/` and URL `https://x.test/p/` give `/srv/p/templates/` | the URL followed by `templates/`, as the method's doc comment ("Url to the templates") says | medium, not executed | Domains.TemplateUrlIsNotUnderUrl | Domains.CorrectedTemplateUrlIsUnderUrl |

`Domains.Domain.TemplateUrl` models the method as written. `Domains.Domain.CorrectedTemplateUrl` is the intended
definition. Nothing else in the plugin calls `template_url()`, so no other part of the model depends on either.

## Left out

- Mustache rendering (src/class-renderer.php) is the uninterpreted `render(templateData, name)`. The template's
  markup is not modelled.
- `version_compare` is a parameter. Only its behaviour on digit-and-dot versions is modelled, in `Versions`. PHP's
  handling of letters, "-dev" and similar suffixes is not.
- `sanitize_text_field( wp_unslash( … ) )` is the uninterpreted `clean`. `$_REQUEST` is a string map.
- BlockRegistration.GetTemplateData: the slot values are passed through as attribute values. A non-string value
  reaches the template as it is.
- `register_block_type`, `add_filter`, `add_action`, `wp_register_script` and `wp_add_inline_script` are WordPress
  calls and are not modelled. Their arguments are returned instead, as `ScriptRegistration` and `InlineScript`.
- `get_translations_for_domain`, `is_admin` with `get_user_locale`/`get_locale`, and `wp_json_encode` are fields of
  `Environment`.
- Reading and decoding the JSON files is a parameter. A missing or undecodable file is the empty map (or `None` for
  the translation map), which is where PHP's `null` ends up. A manifest value of JSON `null` cannot be represented.
- The `try`/`catch` around `register_scripts_and_styles` and its `wp_die` are not modelled, because no modelled step
  throws. `register_styles` does nothing, and `CSS_HANDLE_BLOCKS` is a constant with no use.
- The plugin's bootstrap (src/class-bootstrap.php, update-php.php), which wires the objects together, is not part of
  this model.
- `plugin_basename`, `plugin_dir_path` and `plugin_dir_url` are WordPress functions, passed to `Domains.NewDomain`.
- BlockEditor: JSX rendering, `getContentTitle`, the control labels, content-preview.js and index.js are
  presentational and are not modelled. WordPress applies the schema defaults before the editor sees the attributes,
  so every attribute in `BlockAttributes` has a value.
- BlockEditor.VersionDetectorContent.SetFieldAndValue: the JavaScript accepts any field name. The model accepts only
  the six content fields, because those are the only fields its callers pass.
- BlockEditor.GetContentHelpText: the source passes both texts through `__( …, 'update-php' )`. The model takes `__`
  as the identity, so it gives the untranslated English texts and states nothing about a translated locale. The two
  texts are written as one common start and end around the comparison phrase, and that is the same text as the
  source's two literals.
- Versions.Compare: does not model integer width. PHP reads each component with `strtol`, which saturates at
  `LONG_MAX`; the model's components are unbounded naturals, so "99999999999999999999" and "99999999999999999998"
  compare unequal here, where PHP ranks them equal.
- I18n.Registry.QueueI18n: PHP iterates `queued_handle_translations` in insertion order. The model keeps that order
  in a sequence. It uses `Put` to replace an entry in place or append a new one.
