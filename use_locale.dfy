/**
 * The useLocale composable: the list of locales it accepts, the fields it
 * returns, and its setter, which validates and then runs three effects.
 */
module UseLocale {
  import opened Wrappers
  import opened Effects
  import opened IntlayerProvider

  /** The locales accepted when the configuration lists none. */
  const DefaultLocaleList: seq<string> := ["en", "fr", "es", "de", "ja", "zh", "ko", "ru"]

  /** `configuration?.internationalization?.locales ?? defaultLocaleList`. */
  function HookLocales(intl: Option<Internationalization>): (r: seq<string>)
    ensures intl.Some? && intl.value.locales.Some? ==> r == intl.value.locales.value
    ensures (intl.None? || intl.value.locales.None?) ==> r == DefaultLocaleList
  {
    match intl
    case None => DefaultLocaleList
    case Some(i) => i.locales.OrElse(DefaultLocaleList)
  }

  /** `defaultLocale || 'en'`: an absent or empty configured default gives "en". */
  function HookDefaultLocale(intl: Option<Internationalization>): (r: string)
    ensures r != ""
    ensures ConfigDefaultLocale(intl).Some? && ConfigDefaultLocale(intl).value != "" ==> r == ConfigDefaultLocale(intl).value
    ensures ConfigDefaultLocale(intl).None? || ConfigDefaultLocale(intl).value == "" ==> r == FallbackLocale
  {
    var configured := ConfigDefaultLocale(intl).OrElse("");
    if configured != "" then configured else FallbackLocale
  }

  /**
   * The effects of `setLocale(x)`, given those of the context setter: a
   * logged error for a locale not in the list; otherwise the context
   * setter's effects, one cookie write, then `onLocaleChange` when given.
   */
  function HookEffects(available: seq<string>, contextEffects: seq<Effect>, hasOnLocaleChange: bool, x: string): (r: seq<Effect>)
    ensures x !in available ==> r == [ErrorLogged(NotAvailableMessage(x))]
    ensures x in available ==> |r| > |contextEffects| && r[..|contextEffects|] == contextEffects &&
                               r[|contextEffects|] == CookieWritten(x)
    ensures x in available ==> CookieWrites(r) == CookieWrites(contextEffects) + 1
    ensures x in available ==> (LocaleChangeCalled(x) in r <==> hasOnLocaleChange || LocaleChangeCalled(x) in contextEffects)
    ensures x in available ==> |r| == |contextEffects| + 1 + (if hasOnLocaleChange then 1 else 0)
    ensures x in available && hasOnLocaleChange ==> r[|r| - 1] == LocaleChangeCalled(x)
  {
    if x !in available then [ErrorLogged(NotAvailableMessage(x))]
    else
      var callback := if hasOnLocaleChange then [LocaleChangeCalled(x)] else [];
      assert CookieWrites(callback) == 0;
      CookieWritesAppend(contextEffects, [CookieWritten(x)] + callback);
      assert ([CookieWritten(x)] + callback)[1..] == callback;
      contextEffects + ([CookieWritten(x)] + callback)
  }

  /** The eight default locales are distinct, and the "en" fallback is one of them. */
  lemma DefaultLocaleListShape()
    ensures |DefaultLocaleList| == 8
    ensures forall i, j :: 0 <= i < j < |DefaultLocaleList| ==> DefaultLocaleList[i] != DefaultLocaleList[j]
    ensures FallbackLocale in DefaultLocaleList
    ensures HookDefaultLocale(None) in HookLocales(None)
  {
  }

  /** A configured empty list rejects every locale. */
  lemma EmptyListRejectsAll(i: Internationalization, contextEffects: seq<Effect>, hasOnLocaleChange: bool, x: string)
    requires i.locales == Some([])
    ensures HookEffects(HookLocales(Some(i)), contextEffects, hasOnLocaleChange, x) == [ErrorLogged(NotAvailableMessage(x))]
  {
  }

  /**
   * Where the provider and useLocale differ. With no list configured the
   * provider accepts any new locale and useLocale only the eight defaults;
   * with an empty list configured the provider accepts any new locale and
   * useLocale none.
   */
  lemma ProviderAndHookDiffer(intl: Option<Internationalization>, current: string, hasSetLocale: bool, x: string)
    requires intl.None? || intl.value.locales.None? || intl.value.locales == Some([])
    requires x != current
    ensures LocaleBaseStep(current, ProviderLocales(intl), hasSetLocale, x).locale == x
    ensures (intl.None? || intl.value.locales.None?) ==> (x in HookLocales(intl) <==> x in DefaultLocaleList)
    ensures intl.Some? && intl.value.locales == Some([]) ==> x !in HookLocales(intl)
  {
  }

  /**
   * With both built from one configuration, a locale useLocale accepts is
   * never rejected by the provider's setLocaleBase.
   */
  lemma HookAcceptedNeverProviderRejected(intl: Option<Internationalization>, current: string, hasSetLocale: bool, x: string)
    requires x in HookLocales(intl)
    ensures ErrorLogged(NotAvailableMessage(x)) !in LocaleBaseStep(current, ProviderLocales(intl), hasSetLocale, x).effects
  {
  }

  /** What useLocale injected: the fallback context, or a provider in the given state. */
  datatype ContextState =
    | NoProvider
    | UnderProvider(current: string, available: seq<string>, setterIsCallback: bool, hasSetLocale: bool)

  /** The effects of one useLocale setter call, including those of the context setter it calls. */
  function HookCallEffects(available: seq<string>, context: ContextState, hasOnLocaleChange: bool, x: string): (r: seq<Effect>)
    ensures x !in available ==> r == [ErrorLogged(NotAvailableMessage(x))]
    ensures x in available && context.UnderProvider? && context.setterIsCallback ==>
              |r| >= 2 && r[..2] == [SetLocaleCalled(x), CookieWritten(x)] && CookieWrites(r) == 1
    ensures x in available && context.UnderProvider? && !context.setterIsCallback ==>
              var step := LocaleBaseStep(context.current, context.available, context.hasSetLocale, x);
              && |r| > |step.effects|
              && r[..|step.effects|] == step.effects
              && r[|step.effects|] == CookieWritten(x)
              && (SetLocaleCalled(x) in r <==> context.hasSetLocale && step.locale != context.current)
  {
    var contextEffects := match context
      case NoProvider => []
      case UnderProvider(current, providerLocales, setterIsCallback, hasSetLocale) =>
        SetterStep(current, providerLocales, setterIsCallback, hasSetLocale, x).effects;
    assert context.UnderProvider? && context.setterIsCallback ==> CookieWrites(contextEffects) == 0;
    HookEffects(available, contextEffects, hasOnLocaleChange, x)
  }

  /**
   * No same-locale short-circuit: under a provider created without
   * `props.setLocale` (whether or not one was passed since), setting the
   * provider's current locale again still writes the cookie once;
   * setting a new available locale writes it twice, once from each setter.
   */
  lemma HookCookieWritesUnderProvider(available: seq<string>, current: string, providerLocales: seq<string>, hasSetLocale: bool,
                                      hasOnLocaleChange: bool, x: string)
    requires x in available
    requires providerLocales == [] || x in providerLocales
    ensures x == current ==> CookieWrites(HookCallEffects(available, UnderProvider(current, providerLocales, false, hasSetLocale), hasOnLocaleChange, x)) == 1
    ensures x != current ==> CookieWrites(HookCallEffects(available, UnderProvider(current, providerLocales, false, hasSetLocale), hasOnLocaleChange, x)) == 2
  {
  }

  /** Without a provider the context setter is a no-op: a valid call writes the cookie, then calls back. */
  lemma WithoutProviderOnlyCookieAndCallback(available: seq<string>, hasOnLocaleChange: bool, x: string)
    requires x in available
    ensures HookCallEffects(available, NoProvider, hasOnLocaleChange, x)
            == [CookieWritten(x)] + (if hasOnLocaleChange then [LocaleChangeCalled(x)] else [])
  {
  }

  /** Under a provider, a valid call runs the provider's setter, then writes the cookie, then calls back. */
  lemma UnderProviderContextSetterFirst(available: seq<string>, current: string, providerLocales: seq<string>,
                                        setterIsCallback: bool, hasSetLocale: bool, hasOnLocaleChange: bool, x: string)
    requires x in available
    ensures HookCallEffects(available, UnderProvider(current, providerLocales, setterIsCallback, hasSetLocale), hasOnLocaleChange, x)
            == SetterStep(current, providerLocales, setterIsCallback, hasSetLocale, x).effects
               + ([CookieWritten(x)] + (if hasOnLocaleChange then [LocaleChangeCalled(x)] else []))
  {
  }

  /** The fields useLocale returns, and its setter. */
  class LocaleHook {
    const log: EffectLog
    /** The injected context: a provider, or None for the fallback whose setter does nothing. */
    const context: Option<Provider>
    const hasOnLocaleChange: bool
    const locale: string
    const defaultLocale: string
    const availableLocales: seq<string>
    const localeList: seq<string>

    ghost function ContextFrame(): set<object>
      reads this
    {
      if context.Some? then {context.value} else {}
    }

    ghost predicate Valid()
      reads this, ContextFrame()
    {
      context.Some? ==> context.value.log == log && context.value.Valid()
    }

    /** useLocale({ onLocaleChange }) under the given context. */
    constructor (intl: Option<Internationalization>, context: Option<Provider>, hasOnLocaleChange: bool, log: EffectLog)
      requires context.Some? ==> context.value.log == log && context.value.Valid()
      ensures Valid()
      ensures this.log == log && this.context == context && this.hasOnLocaleChange == hasOnLocaleChange
      ensures availableLocales == HookLocales(intl) && localeList == availableLocales
      ensures defaultLocale == HookDefaultLocale(intl)
      ensures locale == if context.Some? then context.value.locale else HookDefaultLocale(intl)
    {
      this.log := log;
      this.context := context;
      this.hasOnLocaleChange := hasOnLocaleChange;
      var available := HookLocales(intl);
      availableLocales := available;
      localeList := available;
      defaultLocale := HookDefaultLocale(intl);
      locale := match context
        case Some(p) => p.locale
        case None => HookDefaultLocale(intl);
    }

    /** `setLocaleCookie(x)` followed by `onLocaleChange?.(x)`. */
    method WriteCookieAndNotify(x: string)
      modifies log
      ensures log.entries == old(log.entries) + ([CookieWritten(x)] + (if hasOnLocaleChange then [LocaleChangeCalled(x)] else []))
    {
      log.Append(CookieWritten(x));
      if hasOnLocaleChange {
        log.Append(LocaleChangeCalled(x));
      }
    }

    /** The accepted path under a provider: `setLocaleState(x)`, then cookie and callback. */
    method SetThroughProvider(p: Provider, x: string)
      requires Valid() && context == Some(p) && x in availableLocales
      modifies log, p
      ensures Valid()
      ensures log.entries == old(log.entries) +
              HookCallEffects(availableLocales, UnderProvider(old(p.currentLocale), p.availableLocales, p.setterIsCallback, old(p.hasSetLocale)),
                              hasOnLocaleChange, x)
      ensures p.currentLocale == SetterStep(old(p.currentLocale), p.availableLocales, p.setterIsCallback, old(p.hasSetLocale), x).locale
      ensures p.hasSetLocale == old(p.hasSetLocale)
    {
      ghost var before := log.entries;
      ghost var contextEffects := SetterStep(p.currentLocale, p.availableLocales, p.setterIsCallback, p.hasSetLocale, x).effects;
      ghost var own := [CookieWritten(x)] + (if hasOnLocaleChange then [LocaleChangeCalled(x)] else []);
      UnderProviderContextSetterFirst(availableLocales, p.currentLocale, p.availableLocales, p.setterIsCallback, p.hasSetLocale, hasOnLocaleChange, x);
      AppendAssociative(before, contextEffects, own);
      p.SetLocale(x);
      WriteCookieAndNotify(x);
    }

    /** The accepted path under the fallback context, whose setter does nothing. */
    method SetWithoutProvider(x: string)
      requires context.None? && x in availableLocales
      modifies log
      ensures log.entries == old(log.entries) + HookCallEffects(availableLocales, NoProvider, hasOnLocaleChange, x)
    {
      WithoutProviderOnlyCookieAndCallback(availableLocales, hasOnLocaleChange, x);
      WriteCookieAndNotify(x);
    }

    /** setLocale(x): validate against the list, then context setter, cookie, onLocaleChange. */
    method SetLocale(x: string)
      requires Valid()
      modifies log, ContextFrame()
      ensures Valid()
      ensures context.None? ==> log.entries == old(log.entries) + HookCallEffects(availableLocales, NoProvider, hasOnLocaleChange, x)
      ensures context.Some? ==>
                var p := context.value;
                && log.entries == old(log.entries) +
                   HookCallEffects(availableLocales, UnderProvider(old(p.currentLocale), p.availableLocales, p.setterIsCallback, old(p.hasSetLocale)),
                                   hasOnLocaleChange, x)
                && p.currentLocale == (if x in availableLocales
                                       then SetterStep(old(p.currentLocale), p.availableLocales, p.setterIsCallback, old(p.hasSetLocale), x).locale
                                       else old(p.currentLocale))
                && p.hasSetLocale == old(p.hasSetLocale)
    {
      if x !in availableLocales {
        log.Append(ErrorLogged(NotAvailableMessage(x)));
        return;
      }
      if context.Some? {
        SetThroughProvider(context.value, x);
      } else {
        SetWithoutProvider(x);
      }
    }
  }
}
