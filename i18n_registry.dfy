/**
 * The I18n registry: scripts registered as carrying translatable strings are
 * queued once per handle; when WordPress prints its scripts the registry
 * drains the queued handles that are being printed, keeps for each a
 * Jed-formatted locale data restricted to the strings that script uses, and
 * emits an inline `wp.i18n.setLocaleData` script for every handle kept so far.
 *
 * WordPress's side (the locale, the translations loaded for a text domain,
 * `wp_json_encode`) is the `Environment` parameter; the inline scripts that
 * `wp_add_inline_script` would attach are returned instead.
 */
module I18n {
  import opened Wrappers
  import Php
  import Domains

  const DEFAULT_DOMAIN := "update-php"
  /** The locale-data key of the Jed header. */
  const HEADER_KEY := ""
  const PLURAL_FORMS := "Plural-Forms"
  const TRANSLATION_MAP_FILE := "translation-map.json"
  const INLINE_POSITION := "before"

  /** A value of Jed locale data: the header under '' or a msgid's translations. */
  datatype LocaleValue =
    | Header(domain: string, lang: string, pluralForms: Option<string>)
    | Strings(translations: seq<string>)

  type LocaleData = map<string, LocaleValue>

  /** What WordPress has loaded for a text domain: its headers and its entries by msgid. */
  datatype Translations = Translations(headers: map<string, string>, entries: map<string, seq<string>>)

  /**
   * The request's WordPress environment: the locale (the user's locale in the
   * admin), the translations loaded for each text domain, and `wp_json_encode`.
   */
  datatype Environment = Environment(
    lang: string,
    translationsFor: string -> Translations,
    jsonEncode: LocaleData -> string)

  /** One entry of the registry's queued handle translations. */
  datatype QueuedTranslation = QueuedTranslation(handle: string, domain: string, translations: LocaleData)

  /** An inline script attached to a handle, printed before it. */
  datatype InlineScript = InlineScript(handle: string, script: string, position: string)

  // ---------------------------------------------------------------------------
  // Locale data

  /** The Jed header: the domain, the locale, and Plural-Forms when that header is non-empty. */
  function LocaleHeader(domain: string, lang: string, t: Translations): (h: LocaleValue)
    ensures h.Header? && h.domain == domain && h.lang == lang
    ensures h.pluralForms.Some? <==> PLURAL_FORMS in t.headers && !Php.Falsy(t.headers[PLURAL_FORMS])
    ensures h.pluralForms.Some? ==> h.pluralForms.value == t.headers[PLURAL_FORMS]
  {
    Header(domain, lang,
      if PLURAL_FORMS in t.headers && !Php.Falsy(t.headers[PLURAL_FORMS]) then Some(t.headers[PLURAL_FORMS]) else None)
  }

  /**
   * The full Jed locale data of a domain: the header under '' and every
   * entry under its msgid (an entry whose msgid is '' would replace the header).
   */
  function JedLocaleData(domain: string, lang: string, t: Translations): (locale: LocaleData)
    ensures locale.Keys == t.entries.Keys + {HEADER_KEY}
    ensures forall msgid :: msgid in t.entries ==> locale[msgid] == Strings(t.entries[msgid])
    ensures HEADER_KEY !in t.entries ==> locale[HEADER_KEY] == LocaleHeader(domain, lang, t)
  {
    map[HEADER_KEY := LocaleHeader(domain, lang, t)] + map msgid | msgid in t.entries :: Strings(t.entries[msgid])
  }

  /** The msgids a list of original strings selects: each string slashed, falsy ones dropped. */
  function WantedKeys(stringSet: seq<string>): set<string> {
    set s | s in stringSet && !Php.Falsy(Php.AddSlashes(s)) :: Php.AddSlashes(s)
  }

  /** The keys `array_flip` of the filtered, slashed, deduplicated list gives are `WantedKeys`. */
  lemma WantedKeysOfPipeline(stringSet: seq<string>)
    ensures (set s | s in Php.Unique(Php.FilterFalsy(Php.SlashAll(stringSet)))) == WantedKeys(stringSet)
  {
    var wanted := Php.Unique(Php.FilterFalsy(Php.SlashAll(stringSet)));
    forall k ensures k in wanted <==> k in WantedKeys(stringSet) {
      Php.SlashAllMembers(stringSet, k);
    }
  }

  /**
   * The entries of `translations` whose keys are among the slashed, truthy
   * strings of `stringSet`, values unchanged; nothing at all for an empty list.
   */
  function GetLocaleDataMatchingMap(stringSet: seq<string>, translations: LocaleData): (r: LocaleData)
    ensures stringSet == [] ==> r == map[]
    ensures r.Keys == translations.Keys * WantedKeys(stringSet)
    ensures forall k :: k in r ==> r[k] == translations[k]
  {
    if stringSet == [] then map[]
    else
      var wanted := Php.Unique(Php.FilterFalsy(Php.SlashAll(stringSet)));
      var flippedKeys := set s | s in wanted;
      WantedKeysOfPipeline(stringSet);
      map k | k in translations && k in flippedKeys :: translations[k]
  }

  /**
   * The locale data kept for one script: the entries its strings select,
   * with the full data's header put back under ''.
   */
  function ChunkLocaleData(full: LocaleData, strings: seq<string>): (r: LocaleData)
    requires HEADER_KEY in full
    ensures HEADER_KEY in r && r[HEADER_KEY] == full[HEADER_KEY]
    ensures |r| > 0
    ensures r.Keys == (full.Keys * WantedKeys(strings)) + {HEADER_KEY}
    ensures forall k :: k in r ==> r[k] == full[k]
  {
    var r := GetLocaleDataMatchingMap(strings, full)[HEADER_KEY := full[HEADER_KEY]];
    assert HEADER_KEY in r.Keys;
    r
  }

  /** The original strings the translation map lists for a handle, or none. */
  function OriginalStrings(i18nMap: map<string, seq<string>>, handle: string): seq<string> {
    if handle in i18nMap then i18nMap[handle] else []
  }

  /** The locale data the registry keeps for `handle` queued under `domain`. */
  function HandleLocaleData(i18nMap: map<string, seq<string>>, env: Environment, handle: string, domain: string): LocaleData {
    ChunkLocaleData(JedLocaleData(domain, env.lang, env.translationsFor(domain)), OriginalStrings(i18nMap, handle))
  }

  /** The `wp.i18n.setLocaleData` call for one handle; the domain argument only when it is truthy. */
  function InlineScriptText(translations: LocaleData, domain: string, jsonEncode: LocaleData -> string): (text: string)
    ensures var call := "wp.i18n.setLocaleData( " + jsonEncode(translations);
      |call| <= |text| && text[..|call|] == call
    ensures var call := "wp.i18n.setLocaleData( " + jsonEncode(translations);
      Php.Falsy(domain) <==> text == call + " );"
    ensures var call := "wp.i18n.setLocaleData( " + jsonEncode(translations);
      !Php.Falsy(domain) ==> text == call + ", \"" + domain + "\" );"
  {
    if !Php.Falsy(domain) then
      "wp.i18n.setLocaleData( " + jsonEncode(translations) + ", \"" + domain + "\" );"
    else
      "wp.i18n.setLocaleData( " + jsonEncode(translations) + " );"
  }

  // ---------------------------------------------------------------------------
  // The registry's state and its transitions

  /**
   * The three collections the registry updates: the handles ever registered,
   * the queue of handles waiting for their translations (handle to domain),
   * and the translations kept so far, in the order PHP's array keeps them.
   */
  datatype RegistryState = RegistryState(
    registered: set<string>,
    queued: map<string, string>,
    handleTranslations: seq<QueuedTranslation>)

  /** The entry kept for a handle, if any. */
  function Find(list: seq<QueuedTranslation>, handle: string): (r: Option<QueuedTranslation>)
    ensures r.Some? ==> r.value in list && r.value.handle == handle
    ensures r.None? ==> forall i :: 0 <= i < |list| ==> list[i].handle != handle
  {
    if list == [] then None
    else if list[0].handle == handle then Some(list[0])
    else Find(list[1..], handle)
  }

  /** PHP's `$array[$handle] = $entry`: replace the handle's entry in place, or append one. */
  function Put(list: seq<QueuedTranslation>, e: QueuedTranslation): (r: seq<QueuedTranslation>)
    ensures Find(list, e.handle).None? ==> r == list + [e]
  {
    if list == [] then [e]
    else if list[0].handle == e.handle then [e] + list[1..]
    else [list[0]] + Put(list[1..], e)
  }

  /** After a put, the handle finds the new entry and every other handle finds what it found before. */
  lemma {:induction false} PutFind(list: seq<QueuedTranslation>, e: QueuedTranslation, h: string)
    ensures Find(Put(list, e), h) == if h == e.handle then Some(e) else Find(list, h)
  {
    if list != [] && list[0].handle != e.handle {
      PutFind(list[1..], e, h);
      assert Put(list, e)[1..] == Put(list[1..], e);
    } else if list != [] {
      assert Put(list, e)[1..] == list[1..];
    }
  }

  /** `register_script_i18n`: only a handle never registered before is recorded and queued. */
  function Register(s: RegistryState, handle: string, domain: string): (r: RegistryState)
    ensures r.registered == s.registered + {handle}
    ensures r.handleTranslations == s.handleTranslations
    ensures handle !in s.registered ==> r.queued == s.queued[handle := domain]
    ensures handle in s.registered ==> r == s
  {
    if handle !in s.registered then
      s.(registered := s.registered + {handle}, queued := s.queued[handle := domain])
    else s
  }

  /** `queue_i18n_translations_for_handle`: a queued handle is dequeued and its locale data kept. */
  function QueueForHandle(s: RegistryState, handle: string, i18nMap: map<string, seq<string>>, env: Environment): (r: RegistryState)
    ensures r.registered == s.registered
    ensures r.queued == s.queued - {handle}
    ensures handle !in s.queued ==> r == s
  {
    if handle in s.queued then
      var domain := s.queued[handle];
      var translations := HandleLocaleData(i18nMap, env, handle, domain);
      var kept := if |translations| > 0 then Put(s.handleTranslations, QueuedTranslation(handle, domain, translations))
                  else s.handleTranslations;
      s.(queued := s.queued - {handle}, handleTranslations := kept)
    else s
  }

  /** The handles processed in order. */
  function QueueHandles(s: RegistryState, handles: seq<string>, i18nMap: map<string, seq<string>>, env: Environment): (r: RegistryState)
    ensures r.registered == s.registered
    ensures r.queued.Keys <= s.queued.Keys
    decreases |handles|
  {
    if handles == [] then s
    else QueueForHandle(QueueHandles(s, handles[..|handles| - 1], i18nMap, env), handles[|handles| - 1], i18nMap, env)
  }

  /** One inline script per kept entry, in order. */
  function InlineScripts(list: seq<QueuedTranslation>, jsonEncode: LocaleData -> string): (scripts: seq<InlineScript>)
    ensures |scripts| == |list|
    ensures forall i :: 0 <= i < |list| ==>
      scripts[i] == InlineScript(list[i].handle, InlineScriptText(list[i].translations, list[i].domain, jsonEncode), INLINE_POSITION)
  {
    if list == [] then []
    else
      var last := list[|list| - 1];
      InlineScripts(list[..|list| - 1], jsonEncode)
      + [InlineScript(last.handle, InlineScriptText(last.translations, last.domain, jsonEncode), INLINE_POSITION)]
  }

  /** `queue_i18n`: the new state and the inline scripts it attaches. */
  function QueueI18nResult(s: RegistryState, handles: seq<string>, i18nMap: map<string, seq<string>>, env: Environment): (r: (RegistryState, seq<InlineScript>))
    ensures s.queued == map[] ==> r == (s, [])
    ensures s.queued != map[] ==> r.0 == QueueHandles(s, handles, i18nMap, env)
    ensures s.queued != map[] ==> |r.1| == |r.0.handleTranslations|
    ensures s.queued != map[] ==> forall i :: 0 <= i < |r.1| ==>
      r.1[i] == InlineScript(r.0.handleTranslations[i].handle,
                  InlineScriptText(r.0.handleTranslations[i].translations, r.0.handleTranslations[i].domain, env.jsonEncode),
                  INLINE_POSITION)
  {
    if s.queued == map[] then (s, [])
    else
      var s' := QueueHandles(s, handles, i18nMap, env);
      (s', if |s'.handleTranslations| > 0 then InlineScripts(s'.handleTranslations, env.jsonEncode) else [])
  }

  // ---------------------------------------------------------------------------
  // Properties of the transitions

  /** Registering is idempotent per handle: a repeat, even with another domain, changes nothing. */
  lemma RegisterIdempotent(s: RegistryState, handle: string, d1: string, d2: string)
    ensures Register(Register(s, handle, d1), handle, d2) == Register(s, handle, d1)
    ensures handle in Register(s, handle, d1).registered
    ensures handle !in s.registered ==> Register(Register(s, handle, d1), handle, d2).queued[handle] == d1
  {
  }

  /** Draining touches neither the registered set nor anything but the queue and the kept entries. */
  lemma {:induction false} QueueHandlesKeepsRegistered(s: RegistryState, handles: seq<string>, i18nMap: map<string, seq<string>>, env: Environment)
    ensures QueueHandles(s, handles, i18nMap, env).registered == s.registered
    decreases |handles|
  {
    if handles != [] {
      QueueHandlesKeepsRegistered(s, handles[..|handles| - 1], i18nMap, env);
    }
  }

  /** One handle processed: it leaves the queue; the registered set and every other queued handle stay. */
  lemma QueueForHandleStep(s: RegistryState, handle: string, i18nMap: map<string, seq<string>>, env: Environment)
    ensures QueueForHandle(s, handle, i18nMap, env).registered == s.registered
    ensures QueueForHandle(s, handle, i18nMap, env).queued == s.queued - {handle}
  {
  }

  /** After draining `handles`, the queue is the old queue without exactly those handles. */
  lemma {:induction false} QueueHandlesDrains(s: RegistryState, handles: seq<string>, i18nMap: map<string, seq<string>>, env: Environment)
    ensures var q := QueueHandles(s, handles, i18nMap, env).queued;
      forall h :: (h in q <==> h in s.queued && h !in handles) && (h in q ==> q[h] == s.queued[h])
    decreases |handles|
  {
    if handles != [] {
      var init := handles[..|handles| - 1];
      QueueHandlesDrains(s, init, i18nMap, env);
      QueueForHandleStep(QueueHandles(s, init, i18nMap, env), handles[|handles| - 1], i18nMap, env);
      assert forall h :: h in handles <==> h in init || h == handles[|handles| - 1] by {
        assert handles == init + [handles[|handles| - 1]];
      }
    }
  }

  /** One handle processed: a queued handle's entry is put; other handles' entries stay as they were. */
  lemma QueueForHandleEntries(s: RegistryState, handle: string, i18nMap: map<string, seq<string>>, env: Environment)
    ensures var list := QueueForHandle(s, handle, i18nMap, env).handleTranslations;
      && (handle in s.queued ==>
            Find(list, handle) == Some(QueuedTranslation(handle, s.queued[handle], HandleLocaleData(i18nMap, env, handle, s.queued[handle]))))
      && (forall h :: h != handle ==> Find(list, h) == Find(s.handleTranslations, h))
      && (handle !in s.queued ==> list == s.handleTranslations)
  {
    if handle in s.queued {
      var e := QueuedTranslation(handle, s.queued[handle], HandleLocaleData(i18nMap, env, handle, s.queued[handle]));
      forall h ensures Find(Put(s.handleTranslations, e), h) == if h == handle then Some(e) else Find(s.handleTranslations, h) {
        PutFind(s.handleTranslations, e, h);
      }
    }
  }

  /** A member of a non-empty sequence is in its front part or is its last element. */
  lemma InInitOrLast(handles: seq<string>, h: string)
    requires h in handles
    ensures h in handles[..|handles| - 1] || h == handles[|handles| - 1]
  {
    var i :| 0 <= i < |handles| && handles[i] == h;
    if i < |handles| - 1 {
      assert handles[..|handles| - 1][i] == h;
    }
  }

  /** Every handle that was queued and is drained gets an entry with the domain it was queued under. */
  lemma {:induction false} QueueHandlesKeepsEntries(s: RegistryState, handles: seq<string>, i18nMap: map<string, seq<string>>, env: Environment, h: string)
    requires h in handles && h in s.queued
    ensures Find(QueueHandles(s, handles, i18nMap, env).handleTranslations, h)
      == Some(QueuedTranslation(h, s.queued[h], HandleLocaleData(i18nMap, env, h, s.queued[h])))
    decreases |handles|
  {
    var init := handles[..|handles| - 1];
    var last := handles[|handles| - 1];
    var mid := QueueHandles(s, init, i18nMap, env);
    var next := QueueForHandle(mid, last, i18nMap, env);
    var e := QueuedTranslation(h, s.queued[h], HandleLocaleData(i18nMap, env, h, s.queued[h]));
    assert QueueHandles(s, handles, i18nMap, env) == next;
    QueueForHandleEntries(mid, last, i18nMap, env);
    QueueHandlesDrains(s, init, i18nMap, env);
    InInitOrLast(handles, h);
    if h in init {
      QueueHandlesKeepsEntries(s, init, i18nMap, env, h);
      assert Find(mid.handleTranslations, h) == Some(e);
      if h != last {
        assert Find(next.handleTranslations, h) == Find(mid.handleTranslations, h);
      } else {
        assert h !in mid.queued;
        assert next.handleTranslations == mid.handleTranslations;
      }
    } else {
      assert h in mid.queued && mid.queued[h] == s.queued[h];
      assert Find(next.handleTranslations, h) == Some(e);
    }
  }

  /** No entry kept before is lost while draining. */
  lemma {:induction false} QueueHandlesKeepsOldEntries(s: RegistryState, handles: seq<string>, i18nMap: map<string, seq<string>>, env: Environment, h: string)
    requires Find(s.handleTranslations, h).Some?
    ensures Find(QueueHandles(s, handles, i18nMap, env).handleTranslations, h).Some?
    decreases |handles|
  {
    if handles != [] {
      var init := handles[..|handles| - 1];
      var last := handles[|handles| - 1];
      QueueHandlesKeepsOldEntries(s, init, i18nMap, env, h);
      var mid := QueueHandles(s, init, i18nMap, env);
      var next := QueueForHandle(mid, last, i18nMap, env);
      assert QueueHandles(s, handles, i18nMap, env) == next;
      QueueForHandleEntries(mid, last, i18nMap, env);
      if h == last && last in mid.queued {
        assert Find(next.handleTranslations, h).Some?;
      } else {
        assert Find(next.handleTranslations, h) == Find(mid.handleTranslations, h);
      }
    }
  }

  /**
   * A handle stays registered for good: once a call of `queue_i18n` has
   * drained it, registering it again does not put it back in the queue.
   */
  lemma DrainedHandleNeverRequeued(s: RegistryState, handles: seq<string>, i18nMap: map<string, seq<string>>, env: Environment, handle: string, domain: string)
    requires handle in s.registered && handle in handles
    ensures handle in QueueI18nResult(s, handles, i18nMap, env).0.registered
    ensures s.queued != map[] ==> handle !in Register(QueueI18nResult(s, handles, i18nMap, env).0, handle, domain).queued
  {
    QueueHandlesKeepsRegistered(s, handles, i18nMap, env);
    QueueHandlesDrains(s, handles, i18nMap, env);
  }

  /** With nothing queued, `queue_i18n` changes no state and attaches no script. */
  lemma QueueI18nOnEmptyQueue(s: RegistryState, handles: seq<string>, i18nMap: map<string, seq<string>>, env: Environment)
    requires s.queued == map[]
    ensures QueueI18nResult(s, handles, i18nMap, env) == (s, [])
  {
  }

  /**
   * Kept translations are never emptied: each call of `queue_i18n` with a
   * non-empty queue attaches one script to every handle holding an entry,
   * those kept by earlier calls included, in the entries' order.
   */
  lemma QueueI18nEmitsEveryKeptHandle(s: RegistryState, handles: seq<string>, i18nMap: map<string, seq<string>>, env: Environment)
    requires s.queued != map[]
    ensures var (s', scripts) := QueueI18nResult(s, handles, i18nMap, env);
      && |scripts| == |s'.handleTranslations|
      && (forall i :: 0 <= i < |scripts| ==> scripts[i].handle == s'.handleTranslations[i].handle)
      && (forall h :: Find(s.handleTranslations, h).Some? ==> exists i :: 0 <= i < |scripts| && scripts[i].handle == h)
  {
    var s' := QueueHandles(s, handles, i18nMap, env);
    forall h | Find(s.handleTranslations, h).Some?
      ensures exists i :: 0 <= i < |s'.handleTranslations| && s'.handleTranslations[i].handle == h
    {
      QueueHandlesKeepsOldEntries(s, handles, i18nMap, env, h);
      var e := Find(s'.handleTranslations, h).value;
      var i :| 0 <= i < |s'.handleTranslations| && s'.handleTranslations[i] == e;
    }
  }

  /**
   * The kept locale data for a handle carries under '' the header of the
   * domain's full locale data (domain, locale, and Plural-Forms when set),
   * and otherwise only entries of that full data.
   */
  lemma HandleLocaleDataHeader(i18nMap: map<string, seq<string>>, env: Environment, handle: string, domain: string)
    ensures var t := env.translationsFor(domain);
      var full := JedLocaleData(domain, env.lang, t);
      var kept := HandleLocaleData(i18nMap, env, handle, domain);
      && kept[HEADER_KEY] == full[HEADER_KEY]
      && (HEADER_KEY !in t.entries ==> kept[HEADER_KEY] == LocaleHeader(domain, env.lang, t))
      && (forall k :: k in kept && k != HEADER_KEY ==> k in t.entries && kept[k] == Strings(t.entries[k]))
  {
    var t := env.translationsFor(domain);
    var full := JedLocaleData(domain, env.lang, t);
    var kept := ChunkLocaleData(full, OriginalStrings(i18nMap, handle));
    assert kept == HandleLocaleData(i18nMap, env, handle, domain);
    forall k | k in kept && k != HEADER_KEY
      ensures k in t.entries && kept[k] == Strings(t.entries[k])
    {
      assert k in full.Keys;
    }
  }

  /**
   * A msgid is kept only if some listed string slashes to it: a string with
   * a quote or backslash is looked up in its slashed form.
   */
  lemma MatchingMapKeysAreSlashed(stringSet: seq<string>, translations: LocaleData, k: string)
    requires k in GetLocaleDataMatchingMap(stringSet, translations)
    ensures exists s :: s in stringSet && Php.AddSlashes(s) == k && !Php.Falsy(s)
  {
    var s :| s in stringSet && !Php.Falsy(Php.AddSlashes(s)) && Php.AddSlashes(s) == k;
    Php.AddSlashesKeepsTruthiness(s);
  }

  /**
   * A listed string holding a quote, backslash or NUL is looked up in its
   * slashed form only, so it never selects a msgid equal to itself.
   */
  lemma SlashedStringMissesOwnMsgid(s: string, translations: LocaleData)
    requires exists i :: 0 <= i < |s| && Php.NeedsSlash(s[i])
    ensures s !in GetLocaleDataMatchingMap([s], translations)
  {
    assert WantedKeys([s]) <= {Php.AddSlashes(s)};
    assert |Php.AddSlashes(s)| != |s|;
  }

  /** The consistency the registry keeps: a handle is queued or kept only once registered, never both, at most once kept. */
  ghost predicate Inv(s: RegistryState) {
    && s.queued.Keys <= s.registered
    && (forall i :: 0 <= i < |s.handleTranslations| ==>
          s.handleTranslations[i].handle in s.registered && s.handleTranslations[i].handle !in s.queued)
    && (forall i, j :: 0 <= i < j < |s.handleTranslations| ==> s.handleTranslations[i].handle != s.handleTranslations[j].handle)
  }

  lemma RegisterPreservesInv(s: RegistryState, handle: string, domain: string)
    requires Inv(s)
    ensures Inv(Register(s, handle, domain))
  {
  }

  lemma QueueForHandlePreservesInv(s: RegistryState, handle: string, i18nMap: map<string, seq<string>>, env: Environment)
    requires Inv(s)
    ensures Inv(QueueForHandle(s, handle, i18nMap, env))
  {
    if handle in s.queued {
      var e := QueuedTranslation(handle, s.queued[handle], HandleLocaleData(i18nMap, env, handle, s.queued[handle]));
      QueuedHasNoEntry(s, handle);
      assert Put(s.handleTranslations, e) == s.handleTranslations + [e];
      DequeuePreservesInv(s, handle, e);
    }
  }

  /** Dequeuing a handle with no entry yet, and maybe appending its entry, keeps Inv. */
  lemma DequeuePreservesInv(s: RegistryState, handle: string, e: QueuedTranslation)
    requires Inv(s) && handle in s.queued && e.handle == handle
    ensures Inv(s.(queued := s.queued - {handle}))
    ensures Inv(s.(queued := s.queued - {handle}, handleTranslations := s.handleTranslations + [e]))
  {
    var list := s.handleTranslations + [e];
    assert forall i :: 0 <= i < |s.handleTranslations| ==> list[i] == s.handleTranslations[i];
  }

  /** Draining keeps Inv, so every state reached from the empty start satisfies it. */
  lemma {:induction false} QueueHandlesPreservesInv(s: RegistryState, handles: seq<string>, i18nMap: map<string, seq<string>>, env: Environment)
    requires Inv(s)
    ensures Inv(QueueHandles(s, handles, i18nMap, env))
    decreases |handles|
  {
    if handles != [] {
      var init := handles[..|handles| - 1];
      QueueHandlesPreservesInv(s, init, i18nMap, env);
      var mid := QueueHandles(s, init, i18nMap, env);
      assert QueueHandles(s, handles, i18nMap, env) == QueueForHandle(mid, handles[|handles| - 1], i18nMap, env);
      QueueForHandlePreservesInv(mid, handles[|handles| - 1], i18nMap, env);
    }
  }

  predicate IsPrefix(a: seq<QueuedTranslation>, b: seq<QueuedTranslation>) {
    |a| <= |b| && b[..|a|] == a
  }

  lemma PrefixTransitive(a: seq<QueuedTranslation>, b: seq<QueuedTranslation>, c: seq<QueuedTranslation>)
    requires IsPrefix(a, b) && IsPrefix(b, c)
    ensures IsPrefix(a, c)
  {
    assert c[..|a|] == c[..|b|][..|a|];
  }

  /** A dequeued handle that holds no entry yet gets its entry appended: kept entries are never reordered. */
  lemma QueueForHandleAppends(s: RegistryState, handle: string, i18nMap: map<string, seq<string>>, env: Environment)
    requires handle in s.queued ==> Find(s.handleTranslations, handle).None?
    ensures IsPrefix(s.handleTranslations, QueueForHandle(s, handle, i18nMap, env).handleTranslations)
  {
  }

  lemma QueuedHasNoEntry(s: RegistryState, handle: string)
    requires Inv(s)
    ensures handle in s.queued ==> Find(s.handleTranslations, handle).None?
  {
  }

  /** Under Inv a call of `queue_i18n` only appends to the kept entries: the old list is a prefix of the new. */
  lemma {:induction false} QueueHandlesAppends(s: RegistryState, handles: seq<string>, i18nMap: map<string, seq<string>>, env: Environment)
    requires Inv(s)
    ensures IsPrefix(s.handleTranslations, QueueHandles(s, handles, i18nMap, env).handleTranslations)
    decreases |handles|
  {
    if handles != [] {
      var init := handles[..|handles| - 1];
      var last := handles[|handles| - 1];
      QueueHandlesAppends(s, init, i18nMap, env);
      QueueHandlesPreservesInv(s, init, i18nMap, env);
      var mid := QueueHandles(s, init, i18nMap, env);
      assert QueueHandles(s, handles, i18nMap, env) == QueueForHandle(mid, last, i18nMap, env);
      QueuedHasNoEntry(mid, last);
      QueueForHandleAppends(mid, last, i18nMap, env);
      PrefixTransitive(s.handleTranslations, mid.handleTranslations, QueueForHandle(mid, last, i18nMap, env).handleTranslations);
    }
  }

  lemma InitialStateInv()
    ensures Inv(RegistryState({}, map[], []))
  {
  }

  // ---------------------------------------------------------------------------
  // The registry object

  class Registry {
    const domain: Domains.Domain
    const i18nMap: map<string, seq<string>>
    var registeredI18n: set<string>
    var queuedHandleTranslations: seq<QueuedTranslation>
    var queuedScripts: map<string, string>

    function State(): RegistryState
      reads this
    {
      RegistryState(registeredI18n, queuedScripts, queuedHandleTranslations)
    }

    /**
     * An empty map given here is replaced by the decoded translation-map.json
     * in the plugin's directory; `readTranslationMap` gives that file's
     * decoded content, None when it is missing or not a map.
     */
    constructor(domain: Domains.Domain, i18nMap: map<string, seq<string>>,
                readTranslationMap: string -> Option<map<string, seq<string>>>)
      ensures this.domain == domain
      ensures this.i18nMap ==
        if i18nMap == map[] then readTranslationMap(domain.Path() + TRANSLATION_MAP_FILE).GetOr(map[]) else i18nMap
      ensures State() == RegistryState({}, map[], [])
    {
      this.domain := domain;
      this.i18nMap := if i18nMap == map[] then readTranslationMap(domain.Path() + TRANSLATION_MAP_FILE).GetOr(map[]) else i18nMap;
      registeredI18n := {};
      queuedHandleTranslations := [];
      queuedScripts := map[];
    }

    method RegisterScriptI18n(handle: string, textDomain: string := DEFAULT_DOMAIN)
      modifies this
      ensures State() == Register(old(State()), handle, textDomain)
    {
      if handle !in registeredI18n {
        registeredI18n := registeredI18n + {handle};
        queuedScripts := queuedScripts[handle := textDomain];
      }
    }

    /** The callback on `print_scripts_array`: returns the handles unchanged. */
    method QueueI18n(handles: seq<string>, env: Environment) returns (result: seq<string>, scripts: seq<InlineScript>)
      modifies this
      ensures result == handles
      ensures (State(), scripts) == QueueI18nResult(old(State()), handles, i18nMap, env)
    {
      if queuedScripts == map[] {
        return handles, [];
      }
      ghost var s0 := State();
      var i := 0;
      while i < |handles|
        invariant 0 <= i <= |handles|
        invariant State() == QueueHandles(s0, handles[..i], i18nMap, env)
      {
        assert handles[..i + 1][..i] == handles[..i];
        QueueTranslationsForHandle(handles[i], env);
        i := i + 1;
      }
      assert handles[..i] == handles;
      ghost var s1 := State();
      assert s1 == QueueHandles(s0, handles, i18nMap, env);
      scripts := [];
      if |queuedHandleTranslations| > 0 {
        scripts := RegisterInlineScripts(queuedHandleTranslations, env);
      }
      result := handles;
    }

    /** The second loop of `queue_i18n`: one inline script per kept entry, in order. */
    method RegisterInlineScripts(kept: seq<QueuedTranslation>, env: Environment) returns (scripts: seq<InlineScript>)
      ensures scripts == InlineScripts(kept, env.jsonEncode)
    {
      scripts := [];
      var j := 0;
      while j < |kept|
        invariant 0 <= j <= |kept|
        invariant scripts == InlineScripts(kept[..j], env.jsonEncode)
      {
        var entry := kept[j];
        var script := RegisterInlineScript(entry.handle, entry.translations, entry.domain, env);
        assert kept[..j + 1][..j] == kept[..j];
        scripts := scripts + [script];
        j := j + 1;
      }
      assert kept[..j] == kept;
    }

    /** The inline script `wp_add_inline_script` is given for one handle. */
    function RegisterInlineScript(handle: string, translations: LocaleData, textDomain: string, env: Environment): (s: InlineScript)
      ensures s.handle == handle && s.position == INLINE_POSITION
      ensures s.script == InlineScriptText(translations, textDomain, env.jsonEncode)
    {
      InlineScript(handle, InlineScriptText(translations, textDomain, env.jsonEncode), INLINE_POSITION)
    }

    method QueueTranslationsForHandle(handle: string, env: Environment)
      modifies this
      ensures State() == QueueForHandle(old(State()), handle, i18nMap, env)
    {
      if handle in queuedScripts {
        var textDomain := queuedScripts[handle];
        var translations := GetJedLocaleDataForDomainAndChunk(handle, textDomain, env);
        if |translations| > 0 {
          queuedHandleTranslations := Put(queuedHandleTranslations, QueuedTranslation(handle, textDomain, translations));
        }
        queuedScripts := queuedScripts - {handle};
      }
    }

    method GetJedLocaleDataForDomainAndChunk(handle: string, textDomain: string, env: Environment) returns (translations: LocaleData)
      ensures translations == HandleLocaleData(i18nMap, env, handle, textDomain)
    {
      translations := GetJedLocaleData(textDomain, env);
      var index := translations[HEADER_KEY];
      translations := GetLocaleDataMatchingMap(GetOriginalStringsForHandleFromMap(handle), translations);
      translations := translations[HEADER_KEY := index];
    }

    function GetOriginalStringsForHandleFromMap(handle: string): (strings: seq<string>)
      ensures handle in i18nMap ==> strings == i18nMap[handle]
      ensures handle !in i18nMap ==> strings == []
    {
      OriginalStrings(i18nMap, handle)
    }

    /** Builds the domain's Jed locale data entry by entry. */
    method GetJedLocaleData(textDomain: string, env: Environment) returns (locale: LocaleData)
      ensures locale == JedLocaleData(textDomain, env.lang, env.translationsFor(textDomain))
    {
      var translations := env.translationsFor(textDomain);
      locale := map[HEADER_KEY := Header(textDomain, env.lang, None)];
      if PLURAL_FORMS in translations.headers && !Php.Falsy(translations.headers[PLURAL_FORMS]) {
        locale := locale[HEADER_KEY := Header(textDomain, env.lang, Some(translations.headers[PLURAL_FORMS]))];
      }
      var remaining := translations.entries.Keys;
      while remaining != {}
        invariant remaining <= translations.entries.Keys
        invariant locale.Keys == {HEADER_KEY} + (translations.entries.Keys - remaining)
        invariant forall msgid :: msgid in translations.entries.Keys - remaining ==>
          locale[msgid] == Strings(translations.entries[msgid])
        invariant HEADER_KEY !in translations.entries.Keys - remaining ==>
          locale[HEADER_KEY] == LocaleHeader(textDomain, env.lang, translations)
        decreases remaining
      {
        var msgid :| msgid in remaining;
        locale := locale[msgid := Strings(translations.entries[msgid])];
        remaining := remaining - {msgid};
      }
      assert locale == JedLocaleData(textDomain, env.lang, translations);
    }
  }
}
