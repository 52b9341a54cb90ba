/**
 * Server-side rendering of the "update-php/version-detector-content" block:
 * the attribute schema it registers, and the choice between the out-of-date
 * and the up-to-date content variant by comparing the detected PHP version
 * with the block's minimum up-to-date version.
 *
 * PHP's `version_compare(a, b, '>=')` is the parameter `ge`, the Mustache
 * render of template "update-php-block" the parameter `render`, and the
 * sanitising of the `php_version` request value the parameter `clean`.
 */
module BlockRegistration {
  import Php
  import Versions

  /** A value stored in the block's attribute array; `Null` is what `isset` treats as absent. */
  datatype AttrValue = Str(s: string) | Bool(b: bool) | Null

  type Attributes = map<string, AttrValue>
  type TemplateData = map<string, AttrValue>

  const OUT_OF_DATE := "outOfDate"
  const UP_TO_DATE := "upToDate"
  const MINIMUM_KEY := "minimumUpToDateVersion"
  const PREVIEW_KEY := "previewOutdatedContent"
  const TEMPLATE_NAME := "update-php-block"
  const PHP_VERSION_PARAM := "php_version"

  /** PHP's `isset($attributes[$key])`. */
  predicate IsSet(attributes: Attributes, key: string) {
    key in attributes && attributes[key] != Null
  }

  /** PHP's conversion of an attribute value to a string argument. */
  function PhpToString(v: AttrValue): string {
    match v
    case Str(s) => s
    case Bool(b) => if b then "1" else ""
    case Null => ""
  }

  /** Each template key and the suffix of the attribute it is read from. */
  const SLOTS: map<string, string> := map["title" := "Title", "body" := "Body", "emphasis" := "Emphasis"]

  /**
   * The template data for one variant: exactly the keys title, body and
   * emphasis, each the variant's attribute of that slot, or '' when that
   * attribute is not set.
   */
  function GetTemplateData(attributes: Attributes, templateType: string := OUT_OF_DATE): (data: TemplateData)
    ensures data.Keys == SLOTS.Keys
    ensures forall key :: key in data ==>
      data[key] == if IsSet(attributes, templateType + SLOTS[key]) then attributes[templateType + SLOTS[key]] else Str("")
  {
    var titleIndex := templateType + "Title";
    var bodyIndex := templateType + "Body";
    var emphasisIndex := templateType + "Emphasis";
    map[
      "title" := if IsSet(attributes, titleIndex) then attributes[titleIndex] else Str(""),
      "body" := if IsSet(attributes, bodyIndex) then attributes[bodyIndex] else Str(""),
      "emphasis" := if IsSet(attributes, emphasisIndex) then attributes[emphasisIndex] else Str("")
    ]
  }

  /** One variant rendered: its template data given to the `update-php-block` template (out-of-date by default). */
  function RenderContent(
    attributes: Attributes,
    render: (TemplateData, string) -> string,
    templateType: string := OUT_OF_DATE): (out: string)
    ensures out == render(GetTemplateData(attributes, templateType), "update-php-block")
  {
    render(GetTemplateData(attributes, templateType), TEMPLATE_NAME)
  }

  /** The detected version: the cleaned `php_version` request value, or '' when there is none. */
  function GetPhpVersion(request: map<string, string>, clean: string -> string): (v: string)
    ensures PHP_VERSION_PARAM in request ==> v == clean(request[PHP_VERSION_PARAM])
    ensures PHP_VERSION_PARAM !in request ==> v == ""
  {
    if PHP_VERSION_PARAM in request then clean(request[PHP_VERSION_PARAM]) else ""
  }

  /** The configured minimum, compared as '' when it is not set. */
  function MinimumUpToDateVersion(attributes: Attributes): (minimum: string)
    ensures IsSet(attributes, MINIMUM_KEY) ==> minimum == PhpToString(attributes[MINIMUM_KEY])
    ensures !IsSet(attributes, MINIMUM_KEY) ==> minimum == ""
  {
    if IsSet(attributes, MINIMUM_KEY) then PhpToString(attributes[MINIMUM_KEY]) else ""
  }

  /** The variant shown for a detected version: up-to-date exactly when it is `>=` the minimum. */
  function SelectedTemplateType(attributes: Attributes, detected: string, ge: (string, string) -> bool): (t: string)
    ensures t == UP_TO_DATE <==> ge(detected, MinimumUpToDateVersion(attributes))
    ensures t == OUT_OF_DATE <==> !ge(detected, MinimumUpToDateVersion(attributes))
  {
    assert OUT_OF_DATE[0] != UP_TO_DATE[0];
    if ge(detected, MinimumUpToDateVersion(attributes)) then UP_TO_DATE else OUT_OF_DATE
  }

  /**
   * The render callback of the block: '' for a falsy detected version
   * whatever the attributes, otherwise the template rendered from the
   * selected variant's fields.
   */
  function RenderVersionDetectedContent(
    attributes: Attributes,
    request: map<string, string>,
    clean: string -> string,
    ge: (string, string) -> bool,
    render: (TemplateData, string) -> string): (out: string)
    ensures Php.Falsy(GetPhpVersion(request, clean)) ==> out == ""
    ensures !Php.Falsy(GetPhpVersion(request, clean)) ==>
      out == render(GetTemplateData(attributes, SelectedTemplateType(attributes, GetPhpVersion(request, clean), ge)), TEMPLATE_NAME)
  {
    var detectedPhpVersion := GetPhpVersion(request, clean);
    var minimumUpToDateVersion := if IsSet(attributes, MINIMUM_KEY) then PhpToString(attributes[MINIMUM_KEY]) else "";
    if Php.Falsy(detectedPhpVersion) then ""
    else if ge(detectedPhpVersion, minimumUpToDateVersion) then RenderContent(attributes, render, UP_TO_DATE)
    else RenderContent(attributes, render)
  }

  /** Setting any attribute other than the variant's three slots leaves its template data unchanged. */
  lemma TemplateDataIgnoresOtherKeys(attributes: Attributes, templateType: string, key: string, v: AttrValue)
    requires key !in {templateType + "Title", templateType + "Body", templateType + "Emphasis"}
    ensures GetTemplateData(attributes[key := v], templateType) == GetTemplateData(attributes, templateType)
  {
  }

  /**
   * Of the block's own attributes, only the selected variant's three reach
   * the template: the minimum, the preview flag and every field of the
   * other variant never do.
   */
  lemma TemplateDataOnlyFromVariant(attributes: Attributes, selected: bool, key: string, v: AttrValue)
    requires key in {MINIMUM_KEY, PREVIEW_KEY, OtherType(selected) + "Title", OtherType(selected) + "Body", OtherType(selected) + "Emphasis"}
    ensures GetTemplateData(attributes[key := v], TypeOf(selected)) == GetTemplateData(attributes, TypeOf(selected))
  {
    var t := TypeOf(selected);
    assert key[0] in {'m', 'p', OtherType(selected)[0]};
    assert (t + "Title")[0] == (t + "Body")[0] == (t + "Emphasis")[0] == t[0] != OtherType(selected)[0];
    TemplateDataIgnoresOtherKeys(attributes, t, key, v);
  }

  /** The template type for "up to date" (true) or "out of date" (false), and the other one. */
  function TypeOf(upToDate: bool): string { if upToDate then UP_TO_DATE else OUT_OF_DATE }
  function OtherType(upToDate: bool): string { TypeOf(!upToDate) }

  /**
   * The output depends on the minimum only through the comparison: two blocks
   * that agree on the selected variant's three attributes, and whose minimums
   * compare the same way against the detected version, render the same.
   */
  lemma OutputDependsOnlyOnSelection(
    a1: Attributes, a2: Attributes, request: map<string, string>, clean: string -> string,
    ge: (string, string) -> bool, render: (TemplateData, string) -> string)
    requires ge(GetPhpVersion(request, clean), MinimumUpToDateVersion(a1)) == ge(GetPhpVersion(request, clean), MinimumUpToDateVersion(a2))
    requires var t := SelectedTemplateType(a1, GetPhpVersion(request, clean), ge);
      forall slot :: slot in SLOTS.Values ==>
        IsSet(a1, t + slot) == IsSet(a2, t + slot) && (IsSet(a1, t + slot) ==> a1[t + slot] == a2[t + slot])
    ensures RenderVersionDetectedContent(a1, request, clean, ge, render) == RenderVersionDetectedContent(a2, request, clean, ge, render)
  {
    var t := SelectedTemplateType(a1, GetPhpVersion(request, clean), ge);
    assert SLOTS["title"] == "Title" && SLOTS["body"] == "Body" && SLOTS["emphasis"] == "Emphasis";
    assert GetTemplateData(a1, t) == GetTemplateData(a2, t);
  }

  /**
   * The detected version is read from the request's `php_version` value
   * alone: requests that agree on it render the same for every block.
   */
  lemma DetectedVersionFromRequestOnly(
    attributes: Attributes, r1: map<string, string>, r2: map<string, string>, clean: string -> string,
    ge: (string, string) -> bool, render: (TemplateData, string) -> string)
    requires PHP_VERSION_PARAM in r1 <==> PHP_VERSION_PARAM in r2
    requires PHP_VERSION_PARAM in r1 ==> r1[PHP_VERSION_PARAM] == r2[PHP_VERSION_PARAM]
    ensures RenderVersionDetectedContent(attributes, r1, clean, ge, render) == RenderVersionDetectedContent(attributes, r2, clean, ge, render)
  {
  }

  /**
   * For any total preorder `ge`, the up-to-date content is upward closed: a
   * version at least as high as one that shows it shows it too.
   */
  lemma UpToDateIsUpwardClosed(
    attributes: Attributes, r1: map<string, string>, r2: map<string, string>, clean: string -> string,
    ge: (string, string) -> bool, render: (TemplateData, string) -> string)
    requires Versions.IsTotalPreorder(ge)
    requires !Php.Falsy(GetPhpVersion(r1, clean)) && !Php.Falsy(GetPhpVersion(r2, clean))
    requires ge(GetPhpVersion(r2, clean), GetPhpVersion(r1, clean))
    requires SelectedTemplateType(attributes, GetPhpVersion(r1, clean), ge) == UP_TO_DATE
    ensures SelectedTemplateType(attributes, GetPhpVersion(r2, clean), ge) == UP_TO_DATE
    ensures RenderVersionDetectedContent(attributes, r2, clean, ge, render) == RenderVersionDetectedContent(attributes, r1, clean, ge, render)
  {
  }

  /**
   * For any total preorder `ge`, raising the minimum can only move a
   * detected version from the up-to-date to the out-of-date content.
   */
  lemma RaisingMinimumOnlyDemotes(
    a1: Attributes, a2: Attributes, detected: string, ge: (string, string) -> bool)
    requires Versions.IsTotalPreorder(ge)
    requires ge(MinimumUpToDateVersion(a2), MinimumUpToDateVersion(a1))
    requires SelectedTemplateType(a1, detected, ge) == OUT_OF_DATE
    ensures SelectedTemplateType(a2, detected, ge) == OUT_OF_DATE
  {
  }

  /** The worked selections: "7.2" against a minimum of "5.6" is up to date, "5.4" is out of date. */
  lemma SelectionExamples(attributes: Attributes, ge: (string, string) -> bool)
    requires Versions.AgreesOnNumericVersions(ge)
    requires MINIMUM_KEY in attributes && attributes[MINIMUM_KEY] == Str("5.6")
    ensures SelectedTemplateType(attributes, "7.2", ge) == UP_TO_DATE
    ensures SelectedTemplateType(attributes, "5.4", ge) == OUT_OF_DATE
  {
    Versions.TwoDigitVersion("7.2", '7', '2');
    Versions.TwoDigitVersion("5.4", '5', '4');
    Versions.TwoDigitVersion("5.6", '5', '6');
    assert MinimumUpToDateVersion(attributes) == "5.6";
    Versions.AgreesAt(ge, "7.2", "5.6");
    Versions.AgreesAt(ge, "5.4", "5.6");
  }

  // The attribute schema registered with the block type.

  datatype AttrType = StringType | BooleanType
  datatype AttrSpec = AttrSpec(attrType: AttrType, default: AttrValue)

  const DEFAULT_MINIMUM := "5.3"
  const DEFAULT_OUT_OF_DATE_BODY := "The PHP version on your server is out-of-date. This negatively impacts speed and security on your "
    + "site, and needs to be fixed. The below tutorial will show you how to fix this today. Please follow "
    + "these instructions to protect your website."
  const DEFAULT_OUT_OF_DATE_TITLE := "WARNING"
  const DEFAULT_OUT_OF_DATE_EMPHASIS := "Your WordPress site is slower and less secure than it can be."
  const DEFAULT_UP_TO_DATE_BODY := "This means you\U{2019}re enjoying speed and security benefits already. You don\U{2019}t need to update your "
    + "server\U{2019}s PHP version at the moment, but the tutorial below will show you how to do so in future."
  const DEFAULT_UP_TO_DATE_TITLE := "GREAT NEWS!"
  const DEFAULT_UP_TO_DATE_EMPHASIS := "The PHP version on your server is up-to-date."

  /** The attributes declared when the block type is registered, with their types and defaults. */
  function AttributeSchema(): (schema: map<string, AttrSpec>)
    ensures MINIMUM_KEY in schema && schema[MINIMUM_KEY] == AttrSpec(StringType, Str("5.3"))
    ensures PREVIEW_KEY in schema && schema[PREVIEW_KEY] == AttrSpec(BooleanType, Bool(false))
    ensures forall key :: key in schema ==>
      (schema[key].attrType == StringType <==> schema[key].default.Str?)
      && (schema[key].attrType == BooleanType <==> schema[key].default.Bool?)
  {
    KeyNames();
    map[
      MINIMUM_KEY := AttrSpec(StringType, Str(DEFAULT_MINIMUM)),
      PREVIEW_KEY := AttrSpec(BooleanType, Bool(false)),
      OUT_OF_DATE + "Body" := AttrSpec(StringType, Str(DEFAULT_OUT_OF_DATE_BODY)),
      OUT_OF_DATE + "Title" := AttrSpec(StringType, Str(DEFAULT_OUT_OF_DATE_TITLE)),
      OUT_OF_DATE + "Emphasis" := AttrSpec(StringType, Str(DEFAULT_OUT_OF_DATE_EMPHASIS)),
      UP_TO_DATE + "Body" := AttrSpec(StringType, Str(DEFAULT_UP_TO_DATE_BODY)),
      UP_TO_DATE + "Title" := AttrSpec(StringType, Str(DEFAULT_UP_TO_DATE_TITLE)),
      UP_TO_DATE + "Emphasis" := AttrSpec(StringType, Str(DEFAULT_UP_TO_DATE_EMPHASIS))
    ]
  }

  /** The attributes of a block saved without any: every schema default. */
  function DefaultAttributes(): Attributes {
    map key | key in AttributeSchema() :: AttributeSchema()[key].default
  }

  /** The schema declares the minimum, the preview flag and the six content fields, each default of its declared type. */
  lemma SchemaShape()
    ensures AttributeSchema().Keys == {MINIMUM_KEY, PREVIEW_KEY, "outOfDateBody", "outOfDateTitle", "outOfDateEmphasis",
                                       "upToDateBody", "upToDateTitle", "upToDateEmphasis"}
    ensures AttributeSchema()[MINIMUM_KEY] == AttrSpec(StringType, Str("5.3"))
    ensures AttributeSchema()[PREVIEW_KEY] == AttrSpec(BooleanType, Bool(false))
    ensures forall key :: key in AttributeSchema() ==>
      (AttributeSchema()[key].attrType == StringType <==> AttributeSchema()[key].default.Str?)
      && (AttributeSchema()[key].attrType == BooleanType <==> AttributeSchema()[key].default.Bool?)
  {
    KeyNames();
  }

  /** The six content attribute names, spelled out. */
  lemma KeyNames()
    ensures OUT_OF_DATE + "Body" == "outOfDateBody" && OUT_OF_DATE + "Title" == "outOfDateTitle"
    ensures OUT_OF_DATE + "Emphasis" == "outOfDateEmphasis"
    ensures UP_TO_DATE + "Body" == "upToDateBody" && UP_TO_DATE + "Title" == "upToDateTitle"
    ensures UP_TO_DATE + "Emphasis" == "upToDateEmphasis"
  {
  }

  /** The default attributes carry the default minimum, 5.3. */
  lemma DefaultMinimum()
    ensures MinimumUpToDateVersion(DefaultAttributes()) == DEFAULT_MINIMUM
  {
    KeyNames();
    assert AttributeSchema()[MINIMUM_KEY].default == Str(DEFAULT_MINIMUM);
  }

  /** The template data of a block left at its defaults, for either variant. */
  lemma DefaultTemplateData()
    ensures MinimumUpToDateVersion(DefaultAttributes()) == DEFAULT_MINIMUM
    ensures GetTemplateData(DefaultAttributes(), UP_TO_DATE)
      == map["title" := Str(DEFAULT_UP_TO_DATE_TITLE), "body" := Str(DEFAULT_UP_TO_DATE_BODY), "emphasis" := Str(DEFAULT_UP_TO_DATE_EMPHASIS)]
    ensures GetTemplateData(DefaultAttributes(), OUT_OF_DATE)
      == map["title" := Str(DEFAULT_OUT_OF_DATE_TITLE), "body" := Str(DEFAULT_OUT_OF_DATE_BODY), "emphasis" := Str(DEFAULT_OUT_OF_DATE_EMPHASIS)]
  {
    KeyNames();
    var schema := AttributeSchema();
    var d := DefaultAttributes();
    assert schema[MINIMUM_KEY].default == Str(DEFAULT_MINIMUM);
    assert schema["upToDateTitle"].default == Str(DEFAULT_UP_TO_DATE_TITLE);
    assert schema["upToDateBody"].default == Str(DEFAULT_UP_TO_DATE_BODY);
    assert schema["upToDateEmphasis"].default == Str(DEFAULT_UP_TO_DATE_EMPHASIS);
    assert schema["outOfDateTitle"].default == Str(DEFAULT_OUT_OF_DATE_TITLE);
    assert schema["outOfDateBody"].default == Str(DEFAULT_OUT_OF_DATE_BODY);
    assert schema["outOfDateEmphasis"].default == Str(DEFAULT_OUT_OF_DATE_EMPHASIS);
  }

  /**
   * A block left at its defaults shows the "GREAT NEWS!" content to PHP 7.2
   * and the "WARNING" content to PHP 5.2 (the default minimum is 5.3).
   */
  lemma DefaultBlockRendering(request: map<string, string>, clean: string -> string,
    ge: (string, string) -> bool, render: (TemplateData, string) -> string)
    requires Versions.AgreesOnNumericVersions(ge)
    ensures GetPhpVersion(request, clean) == "7.2" ==>
      RenderVersionDetectedContent(DefaultAttributes(), request, clean, ge, render)
      == render(map["title" := Str(DEFAULT_UP_TO_DATE_TITLE), "body" := Str(DEFAULT_UP_TO_DATE_BODY),
                    "emphasis" := Str(DEFAULT_UP_TO_DATE_EMPHASIS)], TEMPLATE_NAME)
    ensures GetPhpVersion(request, clean) == "5.2" ==>
      RenderVersionDetectedContent(DefaultAttributes(), request, clean, ge, render)
      == render(map["title" := Str(DEFAULT_OUT_OF_DATE_TITLE), "body" := Str(DEFAULT_OUT_OF_DATE_BODY),
                    "emphasis" := Str(DEFAULT_OUT_OF_DATE_EMPHASIS)], TEMPLATE_NAME)
  {
    DefaultTemplateData();
    DefaultSelection(ge);
  }

  /** Under the default minimum 5.3, PHP 7.2 is up to date and PHP 5.2 is not. */
  lemma DefaultSelection(ge: (string, string) -> bool)
    requires Versions.AgreesOnNumericVersions(ge)
    ensures SelectedTemplateType(DefaultAttributes(), "7.2", ge) == UP_TO_DATE
    ensures SelectedTemplateType(DefaultAttributes(), "5.2", ge) == OUT_OF_DATE
  {
    DefaultMinimum();
    Versions.CompareExamples();
    Versions.AgreesAt(ge, "7.2", "5.3");
    Versions.AgreesAt(ge, "5.2", "5.3");
  }
}
