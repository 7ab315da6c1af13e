/**
 * The locale provider: best-effort locale resolution, the choice of the
 * initial locale, and the provider's locale state with its setter.
 */
module IntlayerProvider {
  import opened Wrappers
  import opened Effects

  /** The `internationalization` section of the built configuration. */
  datatype Internationalization = Internationalization(
    locales: Option<seq<string>>,
    defaultLocale: Option<string>)

  /** The provider's props; `hasSetLocale` says whether `props.setLocale` was given. */
  datatype ProviderProps = ProviderProps(
    locale: Option<string>,
    defaultLocale: Option<string>,
    hasSetLocale: bool,
    disableEditor: Option<bool>)

  /** The locale every fallback chain ends with. */
  const FallbackLocale: string := "en"

  // ---------------------------------------------------------------------
  // resolveLocale
  // ---------------------------------------------------------------------

  /** `locale.split('-')[0]`: the text before the first `-`, or all of it. */
  function LanguageOf(locale: string): (lang: string)
    ensures lang <= locale
    ensures '-' !in lang
    ensures |lang| < |locale| ==> locale[|lang|] == '-'
  {
    if locale == [] || locale[0] == '-' then []
    else [locale[0]] + LanguageOf(locale[1..])
  }

  /** A locale without `-` is its own language. */
  lemma LanguageOfWithoutDash(locale: string)
    requires '-' !in locale
    ensures LanguageOf(locale) == locale
  {
  }

  /** `availableLocales[0] || 'en'`. */
  function FirstOrFallback(available: seq<string>): (r: string)
    ensures r == FallbackLocale || (|available| > 0 && r == available[0])
    ensures r != ""
  {
    if |available| > 0 && available[0] != "" then available[0] else FallbackLocale
  }

  /**
   * Exact match first, then the language before the first `-`, then the
   * first available locale, then "en". Comparisons are exact: no case folding.
   */
  function ResolveLocale(locale: string, available: seq<string>): (r: string)
    ensures r in available || r == FallbackLocale
    ensures |available| > 0 && available[0] != "" ==> r in available
    ensures locale in available ==> r == locale
    ensures locale !in available && LanguageOf(locale) in available ==> r == LanguageOf(locale)
    ensures r == locale || r == LanguageOf(locale) || r == FirstOrFallback(available)
  {
    if locale in available then locale
    else
      var language := LanguageOf(locale);
      if language in available then language
      else FirstOrFallback(available)
  }

  /** When neither the locale nor its language is available, the first available locale, else "en". */
  lemma ResolveLocaleFallback(locale: string, available: seq<string>)
    requires locale !in available && LanguageOf(locale) !in available
    ensures |available| > 0 && available[0] != "" ==> ResolveLocale(locale, available) == available[0]
    ensures (available == [] || available[0] == "") ==> ResolveLocale(locale, available) == FallbackLocale
  {
  }

  /** Resolving an already resolved locale changes nothing. */
  lemma ResolveLocaleIdempotent(locale: string, available: seq<string>)
    ensures ResolveLocale(ResolveLocale(locale, available), available) == ResolveLocale(locale, available)
  {
  }

  lemma ResolveLocaleExamples()
    ensures ResolveLocale("en-US", ["en", "fr"]) == "en"
    ensures ResolveLocale("de", ["en", "fr"]) == "en"
    ensures ResolveLocale("EN", ["fr", "en"]) == "fr"
    ensures ResolveLocale("fr-CA", []) == "en"
    ensures ResolveLocale("fr", ["", "de"]) == "en"
  {
    assert LanguageOf("en-US") == "en";
    LanguageOfWithoutDash("de");
    LanguageOfWithoutDash("EN");
    LanguageOfWithoutDash("fr");
  }

  // ---------------------------------------------------------------------
  // createIntlayerProvider: available list, initial and resolved locale
  // ---------------------------------------------------------------------

  /** `internationalization?.locales ?? []`. */
  function ProviderLocales(intl: Option<Internationalization>): (r: seq<string>)
    ensures intl.Some? && intl.value.locales.Some? ==> r == intl.value.locales.value
    ensures (intl.None? || intl.value.locales.None?) ==> r == []
  {
    match intl
    case None => []
    case Some(i) => i.locales.OrElse([])
  }

  /** The configured default locale, `undefined` without configuration. */
  function ConfigDefaultLocale(intl: Option<Internationalization>): (r: Option<string>)
    ensures intl.None? ==> r.None?
    ensures intl.Some? ==> r == intl.value.defaultLocale
  {
    match intl
    case None => None
    case Some(i) => i.defaultLocale
  }

  /** A chain `c0 ?? c1 ?? ... ?? fallback`: the first defined candidate. */
  function FirstDefined(candidates: seq<Option<string>>, fallback: string): (r: string)
    ensures (forall i :: 0 <= i < |candidates| ==> candidates[i].None?) ==> r == fallback
    ensures forall i :: (0 <= i < |candidates| && candidates[i].Some? &&
                         (forall j :: 0 <= j < i ==> candidates[j].None?)) ==> r == candidates[i].value
  {
    if candidates == [] then fallback
    else candidates[0].OrElse(FirstDefined(candidates[1..], fallback))
  }

  /**
   * The initial locale: `props.locale ?? cookie ?? props.defaultLocale ??
   * configured default ?? 'en'`; an empty string counts as defined.
   */
  function InitialLocale(props: ProviderProps, cookie: Option<string>, intl: Option<Internationalization>): (r: string)
    ensures props.locale.Some? ==> r == props.locale.value
    ensures props.locale.None? && cookie.Some? ==> r == cookie.value
    ensures props.locale.None? && cookie.None? && props.defaultLocale.Some? ==> r == props.defaultLocale.value
    ensures (props.locale.None? && cookie.None? && props.defaultLocale.None? &&
             ConfigDefaultLocale(intl).Some?) ==> r == ConfigDefaultLocale(intl).value
    ensures (props.locale.None? && cookie.None? && props.defaultLocale.None? &&
             ConfigDefaultLocale(intl).None?) ==> r == FallbackLocale
  {
    var candidates := [props.locale, cookie, props.defaultLocale, ConfigDefaultLocale(intl)];
    assert candidates[0] == props.locale && candidates[1] == cookie;
    assert candidates[2] == props.defaultLocale && candidates[3] == ConfigDefaultLocale(intl);
    FirstDefined(candidates, FallbackLocale)
  }

  /** `resolveLocale(props.locale ?? currentLocale.value, availableLocales)`, taken once at creation. */
  function ProviderResolvedLocale(props: ProviderProps, initial: string, available: seq<string>): (r: string)
    ensures props.locale.Some? ==> r == ResolveLocale(props.locale.value, available)
    ensures props.locale.None? ==> r == ResolveLocale(initial, available)
    ensures r in available || r == FallbackLocale
  {
    ResolveLocale(props.locale.OrElse(initial), available)
  }

  /** The locale resolved at creation is the initial locale, resolved. */
  lemma ResolvedLocaleResolvesInitial(props: ProviderProps, cookie: Option<string>, intl: Option<Internationalization>)
    ensures ProviderResolvedLocale(props, InitialLocale(props, cookie, intl), ProviderLocales(intl))
            == ResolveLocale(InitialLocale(props, cookie, intl), ProviderLocales(intl))
  {
  }

  /** Available ["en", "fr", "es"], default "en", no cookie, requested "fr-CA": the provider resolves "fr". */
  lemma EndToEndScenario()
    ensures var props := ProviderProps(Some("fr-CA"), None, false, None);
            var intl := Some(Internationalization(Some(["en", "fr", "es"]), Some("en")));
            ProviderResolvedLocale(props, InitialLocale(props, None, intl), ProviderLocales(intl)) == "fr"
  {
    assert LanguageOf("fr-CA") == "fr" by {
      assert LanguageOf("-CA") == "";
      assert LanguageOf("r-CA") == "r";
    }
  }

  // ---------------------------------------------------------------------
  // setLocaleBase and the exposed setter, as transitions
  // ---------------------------------------------------------------------

  /** A setter call's outcome: the new current locale and the effects, in order. */
  datatype Transition = Transition(locale: string, effects: seq<Effect>)

  /**
   * `setLocaleBase(x)`: nothing for the current locale; an error for a locale
   * missing from a non-empty list; otherwise update, write the cookie, then
   * call `props.setLocale` when given.
   */
  function LocaleBaseStep(current: string, available: seq<string>, hasSetLocale: bool, x: string): (t: Transition)
    ensures t.locale == current || t.locale == x
    ensures t.locale != current <==> x != current && (available == [] || x in available)
    ensures CookieWritten(x) in t.effects <==> t.locale != current
    ensures CookieWrites(t.effects) <= 1
    ensures t.locale == current ==> (forall e :: e in t.effects ==> e.ErrorLogged?)
    ensures SetLocaleCalled(x) in t.effects <==> hasSetLocale && t.locale != current
    ensures |t.effects| <= 2
  {
    if current == x then Transition(current, [])
    else if |available| > 0 && x !in available then
      Transition(current, [ErrorLogged(NotAvailableMessage(x))])
    else
      var callback := if hasSetLocale then [SetLocaleCalled(x)] else [];
      assert CookieWrites(callback) == 0;
      assert ([CookieWritten(x)] + callback)[1..] == callback;
      Transition(x, [CookieWritten(x)] + callback)
  }

  /** Setting the current locale again changes nothing and has no effect. */
  lemma SameLocaleIsNoop(current: string, available: seq<string>, hasSetLocale: bool)
    ensures LocaleBaseStep(current, available, hasSetLocale, current) == Transition(current, [])
  {
  }

  /** A locale missing from a non-empty list is rejected with one logged error. */
  lemma UnavailableLocaleRejected(current: string, available: seq<string>, hasSetLocale: bool, x: string)
    requires x != current && |available| > 0 && x !in available
    ensures LocaleBaseStep(current, available, hasSetLocale, x)
            == Transition(current, [ErrorLogged(NotAvailableMessage(x))])
  {
  }

  /** An accepted locale: state updated, the cookie written once, then the callback. */
  lemma AcceptedLocale(current: string, available: seq<string>, hasSetLocale: bool, x: string)
    requires x != current && (available == [] || x in available)
    ensures LocaleBaseStep(current, available, hasSetLocale, x).locale == x
    ensures LocaleBaseStep(current, available, hasSetLocale, x).effects
            == if hasSetLocale then [CookieWritten(x), SetLocaleCalled(x)] else [CookieWritten(x)]
  {
  }

  /**
   * The exposed setter: `props.setLocale ?? setLocaleBase`. The choice is made
   * once, at creation (`setterIsCallback`), but setLocaleBase reads
   * `props.setLocale` again at every call (`hasSetLocale`): Vue updates the
   * props object in place, so the two can differ.
   */
  function SetterStep(current: string, available: seq<string>, setterIsCallback: bool, hasSetLocale: bool, x: string): (t: Transition)
    ensures setterIsCallback ==> t == Transition(current, [SetLocaleCalled(x)])
    ensures !setterIsCallback ==> t == LocaleBaseStep(current, available, hasSetLocale, x)
    ensures !setterIsCallback ==> (SetLocaleCalled(x) in t.effects <==> hasSetLocale && t.locale != current)
  {
    if setterIsCallback then Transition(current, [SetLocaleCalled(x)])
    else LocaleBaseStep(current, available, hasSetLocale, x)
  }

  /**
   * As long as `props.setLocale` is present now exactly when it was at
   * creation, a call through the exposed setter never both writes the cookie
   * and calls `props.setLocale`: the callback branch of setLocaleBase is then
   * unreachable.
   */
  lemma SetterNeverWritesAndCalls(current: string, available: seq<string>, hasSetLocale: bool, x: string)
    ensures var t := SetterStep(current, available, hasSetLocale, hasSetLocale, x);
            !(CookieWritten(x) in t.effects && SetLocaleCalled(x) in t.effects)
  {
  }

  /**
   * A `props.setLocale` passed after creation is reached through
   * setLocaleBase: an accepted call then updates the state, writes the cookie
   * and calls it.
   */
  lemma LateCallbackWritesAndCalls(current: string, available: seq<string>, x: string)
    requires x != current && (available == [] || x in available)
    ensures SetterStep(current, available, false, true, x) == Transition(x, [CookieWritten(x), SetLocaleCalled(x)])
  {
    AcceptedLocale(current, available, true, x);
  }

  /**
   * When the exposed setter is setLocaleBase (no `props.setLocale` at
   * creation), a second identical call is a no-op: at most one cookie write
   * in all, whether or not `props.setLocale` was passed since.
   */
  lemma SetterIdempotent(current: string, available: seq<string>, hasSetLocale1: bool, hasSetLocale2: bool, x: string)
    ensures var t1 := SetterStep(current, available, false, hasSetLocale1, x);
            var t2 := SetterStep(t1.locale, available, false, hasSetLocale2, x);
            && t2.locale == t1.locale
            && (t1.locale == x ==> t2.effects == [])
            && CookieWrites(t1.effects + t2.effects) <= 1
  {
  }

  /**
   * The state invariant the setter keeps: the current locale is the initial
   * one, or the available list is empty, or it is available.
   */
  predicate Admissible(locale: string, initial: string, available: seq<string>)
  {
    locale == initial || available == [] || locale in available
  }

  lemma SetterKeepsAdmissible(current: string, initial: string, available: seq<string>, setterIsCallback: bool, hasSetLocale: bool, x: string)
    requires Admissible(current, initial, available)
    ensures Admissible(SetterStep(current, available, setterIsCallback, hasSetLocale, x).locale, initial, available)
  {
  }

  // ---------------------------------------------------------------------
  // useIntlayerContext
  // ---------------------------------------------------------------------

  const MissingProviderMessage: string := "useIntlayerContext must be used within an IntlayerProvider"

  /** The injected provider, or the error thrown when there is none. */
  function UseIntlayerContext(injected: Option<Provider>): (r: Result<Provider, string>)
    ensures r.Success? <==> injected.Some?
    ensures r.Success? ==> r.value == injected.value
    ensures r.Failure? ==> r.error == MissingProviderMessage
  {
    match injected
    case Some(p) => Success(p)
    case None => Failure(MissingProviderMessage)
  }

  // ---------------------------------------------------------------------
  // The provider's state
  // ---------------------------------------------------------------------

  /**
   * The value `createIntlayerProvider` provides, with the state its closures
   * share: the current locale (a ref) and the effect log.
   */
  class Provider {
    const log: EffectLog
    const availableLocales: seq<string>
    /** The choice `props.setLocale ?? setLocaleBase` makes at creation: the exposed setter is `props.setLocale` itself. */
    const setterIsCallback: bool
    const disableEditor: Option<bool>
    /** The `defaultLocale` local: the initial value of the current locale. */
    const initialLocale: string
    /** The returned `locale`: resolved once at creation, never refreshed. */
    const locale: string
    var currentLocale: string
    /** Whether `props.setLocale` is present now; Vue updates the props object in place. */
    var hasSetLocale: bool

    ghost predicate Valid()
      reads this
    {
      Admissible(currentLocale, initialLocale, availableLocales)
    }

    /** createIntlayerProvider(props), given the configuration and the cookie read at load time. */
    constructor (props: ProviderProps, intl: Option<Internationalization>, cookie: Option<string>, log: EffectLog)
      ensures Valid()
      ensures this.log == log
      ensures availableLocales == ProviderLocales(intl)
      ensures initialLocale == InitialLocale(props, cookie, intl) && currentLocale == initialLocale
      ensures locale == ProviderResolvedLocale(props, initialLocale, availableLocales)
      ensures setterIsCallback == props.hasSetLocale && hasSetLocale == props.hasSetLocale
      ensures disableEditor == props.disableEditor
    {
      this.log := log;
      var available := ProviderLocales(intl);
      var initial := InitialLocale(props, cookie, intl);
      availableLocales := available;
      setterIsCallback := props.hasSetLocale;
      hasSetLocale := props.hasSetLocale;
      disableEditor := props.disableEditor;
      initialLocale := initial;
      currentLocale := initial;
      locale := ProviderResolvedLocale(props, initial, available);
    }

    /** The setter of useCrossFrameState: replaces the ref's value, nothing else. */
    method SetCurrentLocale(x: string)
      modifies this
      ensures currentLocale == x && hasSetLocale == old(hasSetLocale)
    {
      currentLocale := x;
    }

    /** The parent re-renders with or without a `setLocale` prop; the locale state is kept. */
    method UpdateSetLocaleProp(present: bool)
      requires Valid()
      modifies this
      ensures Valid()
      ensures hasSetLocale == present && currentLocale == old(currentLocale)
    {
      hasSetLocale := present;
    }

    /** setLocaleBase(x). */
    method SetLocaleBase(x: string)
      requires Valid()
      modifies this, log
      ensures Valid()
      ensures hasSetLocale == old(hasSetLocale)
      ensures var t := LocaleBaseStep(old(currentLocale), availableLocales, hasSetLocale, x);
              currentLocale == t.locale && log.entries == old(log.entries) + t.effects
    {
      if currentLocale == x {
        return;
      }
      if |availableLocales| > 0 && x !in availableLocales {
        log.Append(ErrorLogged(NotAvailableMessage(x)));
        return;
      }
      SetCurrentLocale(x);
      log.Append(CookieWritten(x));
      if hasSetLocale {
        log.Append(SetLocaleCalled(x));
      }
    }

    /** The exposed `setLocale`: `props.setLocale` when given at creation, else setLocaleBase. */
    method SetLocale(x: string)
      requires Valid()
      modifies this, log
      ensures Valid()
      ensures hasSetLocale == old(hasSetLocale)
      ensures var t := SetterStep(old(currentLocale), availableLocales, setterIsCallback, hasSetLocale, x);
              currentLocale == t.locale && log.entries == old(log.entries) + t.effects
    {
      if setterIsCallback {
        log.Append(SetLocaleCalled(x));
      } else {
        SetLocaleBase(x);
      }
    }
  }
}
