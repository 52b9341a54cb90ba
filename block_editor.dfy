/**
 * The editor side of the version-detection block: the block's attribute
 * state, the setters the inspector controls call, the offered minimum
 * versions, and the preview of the selected variant.
 *
 * `setAttributes` belongs to the block editor, not to this plugin; it is
 * modelled as what the editor documents it to be: a merge of the given
 * keys into the block's attributes, every other key kept.
 */
module BlockEditor {
  import BlockRegistration
  import Versions

  /** The block's attributes, with the schema defaults already applied by the editor. */
  datatype BlockAttributes = BlockAttributes(
    minimumUpToDateVersion: string,
    previewOutdatedContent: bool,
    outOfDateBody: string,
    outOfDateTitle: string,
    outOfDateEmphasis: string,
    upToDateBody: string,
    upToDateTitle: string,
    upToDateEmphasis: string)

  /** The six attributes the content setters write. */
  datatype ContentField =
    | OutOfDateBody | OutOfDateTitle | OutOfDateEmphasis
    | UpToDateBody | UpToDateTitle | UpToDateEmphasis

  function FieldName(field: ContentField): string {
    match field
    case OutOfDateBody => "outOfDateBody"
    case OutOfDateTitle => "outOfDateTitle"
    case OutOfDateEmphasis => "outOfDateEmphasis"
    case UpToDateBody => "upToDateBody"
    case UpToDateTitle => "upToDateTitle"
    case UpToDateEmphasis => "upToDateEmphasis"
  }

  /** The object one `setAttributes` call is given: a single key and its value. */
  datatype Patch =
    | PatchMinimum(version: string)
    | PatchPreview(preview: bool)
    | PatchField(field: ContentField, value: string)

  function PatchKey(patch: Patch): string {
    match patch
    case PatchMinimum(_) => BlockRegistration.MINIMUM_KEY
    case PatchPreview(_) => BlockRegistration.PREVIEW_KEY
    case PatchField(field, _) => FieldName(field)
  }

  function PatchValue(patch: Patch): BlockRegistration.AttrValue {
    match patch
    case PatchMinimum(v) => BlockRegistration.Str(v)
    case PatchPreview(b) => BlockRegistration.Bool(b)
    case PatchField(_, v) => BlockRegistration.Str(v)
  }

  /** The attributes as the server's render callback receives them. */
  function ToAttributeMap(a: BlockAttributes): BlockRegistration.Attributes {
    map[
      BlockRegistration.MINIMUM_KEY := BlockRegistration.Str(a.minimumUpToDateVersion),
      BlockRegistration.PREVIEW_KEY := BlockRegistration.Bool(a.previewOutdatedContent),
      "outOfDateBody" := BlockRegistration.Str(a.outOfDateBody),
      "outOfDateTitle" := BlockRegistration.Str(a.outOfDateTitle),
      "outOfDateEmphasis" := BlockRegistration.Str(a.outOfDateEmphasis),
      "upToDateBody" := BlockRegistration.Str(a.upToDateBody),
      "upToDateTitle" := BlockRegistration.Str(a.upToDateTitle),
      "upToDateEmphasis" := BlockRegistration.Str(a.upToDateEmphasis)
    ]
  }

  /** The editor's attributes carry exactly the keys the server declares. */
  lemma AttributeKeysMatchSchema(a: BlockAttributes)
    ensures ToAttributeMap(a).Keys == BlockRegistration.AttributeSchema().Keys
  {
    BlockRegistration.SchemaShape();
  }

  /** `setAttributes`: the patch's one key takes the patch's value and every other attribute is kept. */
  function Merge(a: BlockAttributes, patch: Patch): (b: BlockAttributes)
    ensures ToAttributeMap(b) == ToAttributeMap(a)[PatchKey(patch) := PatchValue(patch)]
  {
    match patch
    case PatchMinimum(v) => a.(minimumUpToDateVersion := v)
    case PatchPreview(p) => a.(previewOutdatedContent := p)
    case PatchField(field, v) =>
      match field
      case OutOfDateBody => a.(outOfDateBody := v)
      case OutOfDateTitle => a.(outOfDateTitle := v)
      case OutOfDateEmphasis => a.(outOfDateEmphasis := v)
      case UpToDateBody => a.(upToDateBody := v)
      case UpToDateTitle => a.(upToDateTitle := v)
      case UpToDateEmphasis => a.(upToDateEmphasis := v)
  }

  /** The patch `setPreview` sends: the negation of the current flag. */
  function PreviewPatch(a: BlockAttributes): Patch {
    PatchPreview(!a.previewOutdatedContent)
  }

  /** Toggling the preview twice gives back the attributes it started from, and once flips only the flag. */
  lemma PreviewToggleTwice(a: BlockAttributes)
    ensures Merge(a, PreviewPatch(a)).previewOutdatedContent == !a.previewOutdatedContent
    ensures Merge(a, PreviewPatch(a)).(previewOutdatedContent := a.previewOutdatedContent) == a
    ensures Merge(Merge(a, PreviewPatch(a)), PreviewPatch(Merge(a, PreviewPatch(a)))) == a
  {
  }

  /**
   * Setting a content field changes that field's value as the server reads
   * it and nothing else: both variants' template data are as before except
   * in the one slot written, and the selected variant does not move.
   */
  lemma {:induction false} ContentEditAsServerSees(a: BlockAttributes, field: ContentField, v: string, templateType: string)
    ensures BlockRegistration.MinimumUpToDateVersion(ToAttributeMap(Merge(a, PatchField(field, v))))
      == BlockRegistration.MinimumUpToDateVersion(ToAttributeMap(a))
    ensures forall slot :: slot in BlockRegistration.SLOTS ==>
      BlockRegistration.GetTemplateData(ToAttributeMap(Merge(a, PatchField(field, v))), templateType)[slot]
      == if templateType + BlockRegistration.SLOTS[slot] == FieldName(field) then BlockRegistration.Str(v)
         else BlockRegistration.GetTemplateData(ToAttributeMap(a), templateType)[slot]
  {
    var before := ToAttributeMap(a);
    var after := ToAttributeMap(Merge(a, PatchField(field, v)));
    assert after == before[FieldName(field) := BlockRegistration.Str(v)];
    assert FieldName(field) != BlockRegistration.MINIMUM_KEY by {
      assert FieldName(field)[0] != BlockRegistration.MINIMUM_KEY[0];
    }
    forall slot | slot in BlockRegistration.SLOTS
      ensures BlockRegistration.GetTemplateData(after, templateType)[slot]
        == if templateType + BlockRegistration.SLOTS[slot] == FieldName(field) then BlockRegistration.Str(v)
           else BlockRegistration.GetTemplateData(before, templateType)[slot]
    {
      var key := templateType + BlockRegistration.SLOTS[slot];
      if key != FieldName(field) {
        assert (key in after) == (key in before);
        if key in before { assert after[key] == before[key]; }
      }
    }
  }

  /** Setting the minimum moves only the selection: neither variant's content changes. */
  lemma MinimumEditAsServerSees(a: BlockAttributes, v: string, templateType: string)
    ensures BlockRegistration.MinimumUpToDateVersion(ToAttributeMap(Merge(a, PatchMinimum(v)))) == v
    ensures BlockRegistration.GetTemplateData(ToAttributeMap(Merge(a, PatchMinimum(v))), templateType)
      == BlockRegistration.GetTemplateData(ToAttributeMap(a), templateType)
  {
    assert ToAttributeMap(Merge(a, PatchMinimum(v))) == ToAttributeMap(a)[BlockRegistration.MINIMUM_KEY := BlockRegistration.Str(v)];
    // the minimum's key ends in 'n'; every content key ends in 'e', 'y' or 's'
    var key := BlockRegistration.MINIMUM_KEY;
    assert key[|key| - 1] == 'n';
    assert (templateType + "Title")[|templateType + "Title"| - 1] == 'e';
    assert (templateType + "Body")[|templateType + "Body"| - 1] == 'y';
    assert (templateType + "Emphasis")[|templateType + "Emphasis"| - 1] == 's';
    BlockRegistration.TemplateDataIgnoresOtherKeys(ToAttributeMap(a), templateType, BlockRegistration.MINIMUM_KEY, BlockRegistration.Str(v));
  }

  /** The attribute prefix of the variant a setter's `outdated` flag names. */
  function VariantPrefix(outdated: bool): string {
    if outdated then BlockRegistration.OUT_OF_DATE else BlockRegistration.UP_TO_DATE
  }

  /** The attribute the body setter writes. */
  function SetBodyContent(outdated: bool := true): (field: ContentField)
    ensures FieldName(field) == VariantPrefix(outdated) + "Body"
  {
    if outdated then OutOfDateBody else UpToDateBody
  }

  /** The attribute the title setter writes. */
  function SetTitleContent(outdated: bool := true): (field: ContentField)
    ensures FieldName(field) == VariantPrefix(outdated) + "Title"
  {
    if outdated then OutOfDateTitle else UpToDateTitle
  }

  /** The attribute the emphasis setter writes. */
  function SetEmphasisContent(outdated: bool := true): (field: ContentField)
    ensures FieldName(field) == VariantPrefix(outdated) + "Emphasis"
  {
    if outdated then OutOfDateEmphasis else UpToDateEmphasis
  }

  /**
   * The three setters of one variant write three different attributes, the
   * two variants' setters never write the same one, and each writes the
   * attribute the server reads for that slot of that variant.
   */
  lemma SettersRouteToServerSlots(outdated: bool)
    ensures SetBodyContent(outdated) != SetTitleContent(outdated) && SetTitleContent(outdated) != SetEmphasisContent(outdated)
    ensures SetEmphasisContent(outdated) != SetBodyContent(outdated)
    ensures SetBodyContent(outdated) != SetBodyContent(!outdated)
    ensures SetTitleContent(outdated) != SetTitleContent(!outdated)
    ensures SetEmphasisContent(outdated) != SetEmphasisContent(!outdated)
    ensures FieldName(SetBodyContent(outdated)) == VariantPrefix(outdated) + BlockRegistration.SLOTS["body"]
    ensures FieldName(SetTitleContent(outdated)) == VariantPrefix(outdated) + BlockRegistration.SLOTS["title"]
    ensures FieldName(SetEmphasisContent(outdated)) == VariantPrefix(outdated) + BlockRegistration.SLOTS["emphasis"]
    ensures SetBodyContent() == SetBodyContent(true)
  {
  }

  /** One entry of a select control. */
  datatype SelectOption = SelectOption(labelText: string, value: string)

  const VERSIONS: seq<string> := ["5.3", "5.4", "5.5", "5.6", "7.0", "7.1", "7.2"]

  /** The options of the minimum-version select, one per listed version, in order. */
  function VersionOptions(): (options: seq<SelectOption>)
    ensures |options| == |VERSIONS|
    ensures forall i :: 0 <= i < |options| ==> options[i].labelText == options[i].value == VERSIONS[i]
  {
    seq(|VERSIONS|, i requires 0 <= i < |VERSIONS| => SelectOption(VERSIONS[i], VERSIONS[i]))
  }

  /** A sequence whose neighbours ascend strictly ascends throughout. */
  lemma {:induction false} AscendingFromNeighbours(vs: seq<seq<nat>>)
    requires forall i :: 0 <= i < |vs| - 1 ==> Versions.Compare(vs[i], vs[i + 1]) == Versions.Less
    ensures forall i, j :: 0 <= i < j < |vs| ==> Versions.Compare(vs[i], vs[j]) == Versions.Less
  {
    if |vs| > 1 {
      AscendingFromNeighbours(vs[1..]);
      forall j | 1 < j < |vs|
        ensures Versions.Compare(vs[0], vs[j]) == Versions.Less
      {
        assert vs[1..][0] == vs[1] && vs[1..][j - 1] == vs[j];
        Versions.CompareLessTransitive(vs[0], vs[1], vs[j]);
      }
      forall i, j | 0 <= i < j < |vs|
        ensures Versions.Compare(vs[i], vs[j]) == Versions.Less
      {
        if i > 0 {
          assert vs[1..][i - 1] == vs[i] && vs[1..][j - 1] == vs[j];
        }
      }
    }
  }

  function VersionComponents(): seq<seq<nat>> {
    [[5, 3], [5, 4], [5, 5], [5, 6], [7, 0], [7, 1], [7, 2]]
  }

  lemma ComponentsOfOptions()
    ensures forall i :: 0 <= i < |VERSIONS| ==>
      Versions.IsNumericVersion(VERSIONS[i]) && Versions.Components(VERSIONS[i]).value == VersionComponents()[i]
  {
    forall i | 0 <= i < |VERSIONS|
      ensures Versions.IsNumericVersion(VERSIONS[i]) && Versions.Components(VERSIONS[i]).value == VersionComponents()[i]
    {
      if i == 0 { Versions.TwoDigitVersion("5.3", '5', '3'); }
      else if i == 1 { Versions.TwoDigitVersion("5.4", '5', '4'); }
      else if i == 2 { Versions.TwoDigitVersion("5.5", '5', '5'); }
      else if i == 3 { Versions.TwoDigitVersion("5.6", '5', '6'); }
      else if i == 4 { Versions.TwoDigitVersion("7.0", '7', '0'); }
      else if i == 5 { Versions.TwoDigitVersion("7.1", '7', '1'); }
      else { Versions.TwoDigitVersion("7.2", '7', '2'); }
    }
  }

  /**
   * Every offered minimum is a digits-and-dots version, the offers strictly
   * ascend under version comparison, and the schema's default minimum is
   * the lowest of them.
   */
  lemma VersionOptionsAscending()
    ensures forall i :: 0 <= i < |VersionOptions()| ==> Versions.IsNumericVersion(VersionOptions()[i].value)
    ensures forall i, j :: 0 <= i < j < |VersionOptions()| ==>
      Versions.AtLeast(VersionOptions()[j].value, VersionOptions()[i].value)
      && !Versions.AtLeast(VersionOptions()[i].value, VersionOptions()[j].value)
    ensures VersionOptions()[0].value == BlockRegistration.DEFAULT_MINIMUM
  {
    ComponentsOfOptions();
    var cs := VersionComponents();
    AscendingFromNeighbours(cs);
    forall i, j | 0 <= i < j < |VersionOptions()|
      ensures Versions.AtLeast(VersionOptions()[j].value, VersionOptions()[i].value)
        && !Versions.AtLeast(VersionOptions()[i].value, VersionOptions()[j].value)
    {
      Versions.CompareFlip(cs[i], cs[j]);
    }
  }

  /** What the preview component is given. */
  datatype PreviewProps = PreviewProps(title: string, body: string, emphasis: string)

  /** The preview props as the template data the server builds from them. */
  function AsTemplateData(p: PreviewProps): BlockRegistration.TemplateData {
    map["title" := BlockRegistration.Str(p.title), "body" := BlockRegistration.Str(p.body),
        "emphasis" := BlockRegistration.Str(p.emphasis)]
  }

  /** The condition the help text of a variant states for that variant being shown. */
  datatype ShownWhen = BelowMinimum | AtOrAboveMinimum

  function HelpTextCondition(outdated: bool): ShownWhen {
    if outdated then BelowMinimum else AtOrAboveMinimum
  }

  function ComparisonPhrase(cond: ShownWhen): string {
    match cond
    case BelowMinimum => "less than"
    case AtOrAboveMinimum => "equal to or greater than"
  }

  const HELP_TEXT_START := "When the detected php version is "
  const HELP_TEXT_END := " the \"Minimum Up To Date Version\", this is the content that gets shown."

  /**
   * The help text under a variant's heading. The two texts differ only in
   * the comparison they name, so they are written as that phrase between
   * the common start and end.
   */
  function GetContentHelpText(outdated: bool := true): (text: string)
    ensures text == HELP_TEXT_START + ComparisonPhrase(HelpTextCondition(outdated)) + HELP_TEXT_END
    ensures outdated <==> text == HELP_TEXT_START + "less than" + HELP_TEXT_END
  {
    HELP_TEXT_START + (if outdated then "less than" else "equal to or greater than") + HELP_TEXT_END
  }

  /** Whether a help text's condition holds for a detected version against the minimum. */
  predicate Holds(cond: ShownWhen, detected: string, minimum: string, ge: (string, string) -> bool) {
    match cond
    case BelowMinimum => !ge(detected, minimum)
    case AtOrAboveMinimum => ge(detected, minimum)
  }

  /** Each variant's help text states exactly when the server selects that variant. */
  lemma HelpTextMatchesServer(attributes: BlockRegistration.Attributes, detected: string, ge: (string, string) -> bool, outdated: bool)
    ensures BlockRegistration.SelectedTemplateType(attributes, detected, ge) == VariantPrefix(outdated)
      <==> Holds(HelpTextCondition(outdated), detected, BlockRegistration.MinimumUpToDateVersion(attributes), ge)
  {
    assert BlockRegistration.OUT_OF_DATE[0] != BlockRegistration.UP_TO_DATE[0];
  }

  class VersionDetectorContent {
    /** The block's attributes as the editor holds them. */
    var attributes: BlockAttributes

    constructor(attributes: BlockAttributes)
      ensures this.attributes == attributes
    {
      this.attributes := attributes;
    }

    /** The editor's `setAttributes`. */
    method SetAttributes(patch: Patch)
      modifies this
      ensures attributes == Merge(old(attributes), patch)
    {
      attributes := Merge(attributes, patch);
    }

    /** Toggles `previewOutdatedContent`. */
    method SetPreview()
      modifies this
      ensures attributes == Merge(old(attributes), PreviewPatch(old(attributes)))
      ensures attributes.previewOutdatedContent == !old(attributes).previewOutdatedContent
    {
      SetAttributes(PatchPreview(!attributes.previewOutdatedContent));
      PreviewToggleTwice(old(attributes));
    }

    /** Sets `minimumUpToDateVersion` and nothing else. */
    method SetMinimumUpToDate(value: string)
      modifies this
      ensures attributes == Merge(old(attributes), PatchMinimum(value))
      ensures attributes == old(attributes).(minimumUpToDateVersion := value)
    {
      SetAttributes(PatchMinimum(value));
    }

    /** Sets one content attribute; the setter callbacks call this with the field their flag selects. */
    method SetFieldAndValue(field: ContentField, value: string)
      modifies this
      ensures attributes == Merge(old(attributes), PatchField(field, value))
      ensures ToAttributeMap(attributes) == ToAttributeMap(old(attributes))[FieldName(field) := BlockRegistration.Str(value)]
    {
      SetAttributes(PatchField(field, value));
    }

    /**
     * The preview of a variant: exactly the template data the server builds
     * for that variant from the current attributes.
     */
    function GetContentPreview(outdated: bool := true): (p: PreviewProps)
      reads this
      ensures AsTemplateData(p) == BlockRegistration.GetTemplateData(ToAttributeMap(attributes), VariantPrefix(outdated))
    {
      BlockRegistration.KeyNames();
      if outdated then
        PreviewProps(attributes.outOfDateTitle, attributes.outOfDateBody, attributes.outOfDateEmphasis)
      else
        PreviewProps(attributes.upToDateTitle, attributes.upToDateBody, attributes.upToDateEmphasis)
    }

    /**
     * The preview the block shows, that of the variant `previewOutdatedContent`
     * selects, is the content the server renders for any detected version
     * on that side of the minimum.
     */
    lemma ShownPreviewMirrorsServer(detected: string, ge: (string, string) -> bool)
      requires ge(detected, attributes.minimumUpToDateVersion) != attributes.previewOutdatedContent
      ensures AsTemplateData(GetContentPreview(attributes.previewOutdatedContent))
        == BlockRegistration.GetTemplateData(ToAttributeMap(attributes),
             BlockRegistration.SelectedTemplateType(ToAttributeMap(attributes), detected, ge))
    {
      assert BlockRegistration.MinimumUpToDateVersion(ToAttributeMap(attributes)) == attributes.minimumUpToDateVersion;
    }
  }
}
