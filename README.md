# vue-intlayer locale and content-plugin core, in Dafny

This project models the core of `vue-intlayer`, the Vue binding of the
intlayer i18n engine. It covers five pieces:

- **Locale resolution** (`resolveLocale`). Try an exact match, then the
  language before the first `-`, then the first available locale, then `"en"`.
- **The provider's locale state** (`createIntlayerProvider`). The initial
  locale comes from a `??` chain. `setLocaleBase` is a three-way transition:
  no-op, reject with a logged error, or accept. Accepting updates the state,
  writes the cookie and calls `props.setLocale`. The exposed setter is
  `props.setLocale` when one is given at creation. `setLocaleBase` reads
  `props.setLocale` again at each call, and Vue updates the props object in
  place. `useIntlayerContext` fails without a provider.
- **The `useLocale` composable**. It picks the accepted locale list and the
  returned fields. Its setter validates the locale, then calls the context
  setter, writes the cookie and calls `onLocaleChange`.
- **The four content plugins**. Each has a `canHandle` type test over
  JavaScript values and a `transform` that builds a Vue node from the
  interpreter's context. `getDictionary` and `getIntlayer` assemble the plugin
  list they hand to the content engine.
- **`renderVueElement`**. A structural copy of a VNode tree.

Modelling choices:

- JavaScript values are a closed datatype (`JsValues.Value`).
- Vue's `h(type, props, children)` is an object whose only properties are
  those three.
- A slot closure `() => x` is `Thunk(x)`.
- The cookie, `console.error` and the caller's callbacks are entries in one
  ordered effect log (`Effects.EffectLog`). The provider and `useLocale`
  share it, so a double cookie write is visible.
- The configuration and the cookie read at load time are parameters.

Behaviour of the code that is easy to misread:

- The initial locale skips only `null`/`undefined` (`??`), not empty strings.
- The resolution fallback is `"en"` also when the first available locale is `""` (`||`).
- The exposed setter is idempotent unless `props.setLocale` was given at
  creation; that callback is then called again on every call.
- The base plugin list is intlayerNode, vueNode, markdown. The markdown-string
  plugin is defined but not in that list.
- `setLocaleBase` calls `props.setLocale` after accepting. But when
  `props.setLocale` is given at creation, it replaces `setLocaleBase` as the
  exposed setter. So, as long as `props.setLocale` does not change after
  creation, that call cannot happen through the exposed setter
  (`SetterNeverWritesAndCalls`). A `props.setLocale` passed only later is
  reached through `setLocaleBase`: an accepted call then writes the cookie
  and calls it (`LateCallbackWritesAndCalls`).
- `renderVueElement` turns falsy children (`0`, `""`, `false`) into no
  children. Its doc comment promises the same children.

## Model

| member | source | states |
|---|---|---|
| `IntlayerProvider.LanguageOf` | packages/vue-intlayer/src/IntlayerProvider.ts:16 | `split('-')[0]`: the result is a prefix of the locale without `-`, and is followed by `-` when shorter than the locale |
| `IntlayerProvider.LanguageOfWithoutDash` | packages/vue-intlayer/src/IntlayerProvider.ts:16 | a locale without `-` is its own language |
| `IntlayerProvider.FirstOrFallback` | packages/vue-intlayer/src/IntlayerProvider.ts:22 | `available[0]` or `"en"` is never empty and is `"en"` or the first available locale |
| `IntlayerProvider.ResolveLocale` | packages/vue-intlayer/src/IntlayerProvider.ts:7-23 | the locale when available (exact equality); else its language when available; the result is always available or `"en"`, and always available when the first entry is a non-empty locale |
| `IntlayerProvider.ResolveLocaleFallback` | packages/vue-intlayer/src/IntlayerProvider.ts:21-22 | with no exact or language match: the first available locale, or `"en"` for an empty list or an empty first entry |
| `IntlayerProvider.ResolveLocaleIdempotent` | packages/vue-intlayer/src/IntlayerProvider.ts:7-23 | resolving a resolved locale gives it back |
| `IntlayerProvider.ResolveLocaleExamples` | packages/vue-intlayer/src/IntlayerProvider.ts:11-22 | `en-US`→`en`, `de`→first available, no case folding (`EN` against `[fr, en]`→`fr`), empty list→`en`, empty first entry→`en` |
| `IntlayerProvider.ProviderLocales` | packages/vue-intlayer/src/IntlayerProvider.ts:67-69 | the configured locales, or `[]` when none are configured |
| `IntlayerProvider.ConfigDefaultLocale` | packages/vue-intlayer/src/IntlayerProvider.ts:67-68 | the configured `defaultLocale`, undefined when there is no `internationalization` section |
| `IntlayerProvider.FirstDefined` | packages/vue-intlayer/src/IntlayerProvider.ts:71-76 | a `??` chain yields the first defined candidate, or the fallback when none is defined |
| `IntlayerProvider.InitialLocale` | packages/vue-intlayer/src/IntlayerProvider.ts:71-76 | `props.locale`, else cookie, else `props.defaultLocale`, else configured default, else `"en"`; a defined empty string is kept |
| `IntlayerProvider.ProviderResolvedLocale` | packages/vue-intlayer/src/IntlayerProvider.ts:99-100 | `props.locale` resolved when given, else the current locale resolved; the result is an available locale or `"en"` |
| `IntlayerProvider.ResolvedLocaleResolvesInitial` | packages/vue-intlayer/src/IntlayerProvider.ts:99-100 | `props.locale ?? currentLocale.value` at creation is the initial locale, so the returned locale is the initial locale resolved |
| `IntlayerProvider.EndToEndScenario` | packages/vue-intlayer/src/IntlayerProvider.ts:66-103 | available `en, fr, es`, default `en`, no cookie, requested `fr-CA`: the provider's locale is `fr` |
| `IntlayerProvider.LocaleBaseStep` | packages/vue-intlayer/src/IntlayerProvider.ts:83-96 | the state changes iff the locale differs and the list is empty or holds it; the cookie is written (at most once) iff the state changes; an unchanged state has at most an error logged; `props.setLocale` is called iff it is present at the call and the state changes |
| `IntlayerProvider.SameLocaleIsNoop` | packages/vue-intlayer/src/IntlayerProvider.ts:84 | setting the current locale changes nothing and has no effect |
| `IntlayerProvider.UnavailableLocaleRejected` | packages/vue-intlayer/src/IntlayerProvider.ts:86-89 | a new locale missing from a non-empty list: state kept, exactly one error logged, no cookie |
| `IntlayerProvider.AcceptedLocale` | packages/vue-intlayer/src/IntlayerProvider.ts:91-95 | an accepted locale becomes current, the cookie is written once, then `props.setLocale` is called when given |
| `IntlayerProvider.SetterStep` | packages/vue-intlayer/src/IntlayerProvider.ts:83-98 | the setter chosen at creation: with `props.setLocale` then, it is that callback, called once with the new locale and nothing else (no validation, no state change, no cookie); without it, the setter is exactly `setLocaleBase` with `props.setLocale` as present at the call, which it calls only when present and the locale is accepted |
| `IntlayerProvider.SetterNeverWritesAndCalls` | packages/vue-intlayer/src/IntlayerProvider.ts:83-98 | while `props.setLocale` is present exactly when it was at creation, no call through the exposed setter both writes the cookie and calls it |
| `IntlayerProvider.LateCallbackWritesAndCalls` | packages/vue-intlayer/src/IntlayerProvider.ts:91-98 | a provider created without `props.setLocale` that receives one later: an accepted call updates the state, writes the cookie, then calls it |
| `IntlayerProvider.SetterIdempotent` | packages/vue-intlayer/src/IntlayerProvider.ts:83-98 | when the exposed setter is `setLocaleBase` (no `props.setLocale` at creation), a repeated call leaves the state as the first left it and has no effect once the locale was taken, and the two calls write the cookie at most once, whether or not `props.setLocale` was passed since |
| `IntlayerProvider.SetterKeepsAdmissible` | packages/vue-intlayer/src/IntlayerProvider.ts:83-98 | the current locale stays the initial one, or available, or the list is empty |
| `IntlayerProvider.UseIntlayerContext` | packages/vue-intlayer/src/IntlayerProvider.ts:49-57 | fails, with the source's message, exactly when no provider was injected; otherwise returns it |
| `IntlayerProvider.Provider.constructor` | packages/vue-intlayer/src/IntlayerProvider.ts:66-107 | available list, initial locale as current, the returned locale resolved once, the returned locale is `ProviderResolvedLocale`, the setter choice and the current presence of `props.setLocale` both as the props say, and `disableEditor` |
| `IntlayerProvider.Provider.SetCurrentLocale` | packages/vue-intlayer/src/IntlayerProvider.ts:32-35 | the state's value becomes the given locale; the props are untouched |
| `IntlayerProvider.Provider.UpdateSetLocaleProp` | packages/vue-intlayer/src/IntlayerProvider.ts:120-130 | Vue updating the props object that `setup` handed over: `props.setLocale` appears or disappears, the locale state and the invariant are kept |
| `IntlayerProvider.Provider.SetLocaleBase` | packages/vue-intlayer/src/IntlayerProvider.ts:83-96 | new state and log entries are those of `LocaleBaseStep` with `props.setLocale` as present at the call; the props and the invariant are kept |
| `IntlayerProvider.Provider.SetLocale` | packages/vue-intlayer/src/IntlayerProvider.ts:98 | new state and log entries are those of `SetterStep` for the creation-time choice and the present props; the props and the invariant are kept |
| `UseLocale.HookLocales` | packages/vue-intlayer/src/useLocale.ts:28-29 | the configured locales, including an empty list; the eight defaults only when none are configured |
| `UseLocale.DefaultLocaleListShape` | packages/vue-intlayer/src/useLocale.ts:8-16 | `DefaultLocaleList` holds eight distinct locales, `"en"` among them, so the hook's default locale without configuration is one it accepts |
| `UseLocale.HookDefaultLocale` | packages/vue-intlayer/src/useLocale.ts:55 | never empty: the configured default when non-empty, else `"en"` |
| `UseLocale.HookEffects` | packages/vue-intlayer/src/useLocale.ts:42-51 | an unlisted locale logs one error and nothing else; a listed one runs the context setter's effects, then exactly one more cookie write, then a single `onLocaleChange` call when given, and nothing else |
| `UseLocale.EmptyListRejectsAll` | packages/vue-intlayer/src/useLocale.ts:43-46 | a configured empty list rejects every locale |
| `UseLocale.ProviderAndHookDiffer` | packages/vue-intlayer/src/useLocale.ts:28-46 | with no or an empty configured list the provider accepts any new locale, while useLocale accepts only the eight defaults or nothing |
| `UseLocale.HookAcceptedNeverProviderRejected` | packages/vue-intlayer/src/useLocale.ts:43-48 | from one configuration, a locale useLocale accepts is never rejected by the provider |
| `UseLocale.HookCallEffects` | packages/vue-intlayer/src/useLocale.ts:42-50 | a locale outside the list only logs the error, the context setter is not reached; when the provider's exposed setter is `props.setLocale`, that callback runs first, then exactly one cookie write; otherwise setLocaleBase's effects come first, then the hook's own cookie write, and `props.setLocale` is called iff it is present at the call and the provider accepts the locale |
| `UseLocale.HookCookieWritesUnderProvider` | packages/vue-intlayer/src/useLocale.ts:42-51 | no same-locale short-circuit: under a provider whose exposed setter is `setLocaleBase`, the current locale again still writes the cookie once; a new one writes it twice, whether or not `props.setLocale` was passed later |
| `UseLocale.WithoutProviderOnlyCookieAndCallback` | packages/vue-intlayer/src/useLocale.ts:31-50 | under the fallback context a valid call only writes the cookie and then calls `onLocaleChange` |
| `UseLocale.UnderProviderContextSetterFirst` | packages/vue-intlayer/src/useLocale.ts:48-50 | under a provider, a valid call's effects are the provider setter's effects, then the cookie write, then `onLocaleChange` when given |
| `UseLocale.LocaleHook.constructor` | packages/vue-intlayer/src/useLocale.ts:26-60 | the returned locale list, `localeList` equal to `availableLocales`, default locale and the context's locale |
| `UseLocale.LocaleHook.WriteCookieAndNotify` | packages/vue-intlayer/src/useLocale.ts:49-50 | appends one cookie write, then one `onLocaleChange` call when given |
| `UseLocale.LocaleHook.SetThroughProvider` | packages/vue-intlayer/src/useLocale.ts:48-50 | the accepted path under a provider: the provider's locale moves as its exposed setter says, and the log grows by exactly `HookCallEffects` |
| `UseLocale.LocaleHook.SetWithoutProvider` | packages/vue-intlayer/src/useLocale.ts:33-50 | the accepted path under the fallback context: the no-op context setter adds nothing, so the log grows by the cookie write and the callback |
| `UseLocale.LocaleHook.SetLocale` | packages/vue-intlayer/src/useLocale.ts:42-51 | the log grows by `HookCallEffects`, and the provider's locale changes only as its own setter decides, and only for a listed locale |
| `VueElement.IsElement` | packages/vue-intlayer/src/vueElement/renderVueElement.ts:10 | a value is treated as a VNode exactly when it is a plain object with a `type` key |
| `VueElement.PropsOrEmpty` | packages/vue-intlayer/src/vueElement/renderVueElement.ts:28 | `props` or `{}` is truthy and keeps truthy props |
| `VueElement.RenderVueElement` | packages/vue-intlayer/src/vueElement/renderVueElement.ts:9-33 | a non-element comes back unchanged; an element becomes a node with exactly type, props and children, the same type, props or `{}`, and no children when they were falsy |
| `VueElement.RenderArrayChildren` | packages/vue-intlayer/src/vueElement/renderVueElement.ts:16-21 | array children keep length and order, each child rendered (non-elements kept) |
| `VueElement.RenderSingleChild` | packages/vue-intlayer/src/vueElement/renderVueElement.ts:22-26 | a single truthy non-array child is rendered, so kept unless it is an element |
| `VueElement.RenderReadsOnlyTypePropsChildren` | packages/vue-intlayer/src/vueElement/renderVueElement.ts:28-32 | elements agreeing on type, props and children render alike: other properties are dropped |
| `VueElement.RenderYieldsRendered` | packages/vue-intlayer/src/vueElement/renderVueElement.ts:9-33 | every result is in the rendered normal form, at every level |
| `VueElement.RenderedIsFixpoint` | packages/vue-intlayer/src/vueElement/renderVueElement.ts:9-33 | a tree in the rendered normal form is rendered to itself |
| `VueElement.RenderIdempotent` | packages/vue-intlayer/src/vueElement/renderVueElement.ts:3-33 | rendering a rendered tree gives the same tree |
| `Plugins.GetMarkdownMetadata` | packages/vue-intlayer/src/types/core-types.ts:36-38 | no metadata key is ever extracted |
| `Plugins.WithoutPlugins` | packages/vue-intlayer/src/plugins.ts:75 | the context minus `plugins`, every other key unchanged |
| `Plugins.IntlayerNodeCanHandle` | packages/vue-intlayer/src/plugins.ts:70-73 | true exactly for bigints, strings and numbers |
| `Plugins.IntlayerNodeTransform` | packages/vue-intlayer/src/plugins.ts:74-79 | a ContentSelector with the context minus `plugins`, whose slot is an EditedContentRenderer with the same props whose slot yields the context's `children` |
| `Plugins.IntlayerNodeIgnoresNode` | packages/vue-intlayer/src/plugins.ts:74-79 | the transform's result does not depend on the node |
| `Plugins.VueNodeCanHandle` | packages/vue-intlayer/src/plugins.ts:97-101 | true exactly for a plain object whose `type` is `"VueNode"` |
| `Plugins.VueNodeTransform` | packages/vue-intlayer/src/plugins.ts:102-107 | a ContentSelector with the context minus `plugins`, whose slot yields the node passed through renderVueElement |
| `Plugins.MarkdownStringCanHandle` | packages/vue-intlayer/src/plugins.ts:121 | true exactly for strings |
| `Plugins.MarkdownOverrides` | packages/vue-intlayer/src/plugins.ts:131-133 | exactly the keys `value`, `nodeType` (=`"Markdown"`) and `metadata`, holding the given value and metadata; the markdown plugin puts the same three keys over the context at lines 191-193 |
| `Plugins.MarkdownStringTransform` | packages/vue-intlayer/src/plugins.ts:122-137 | null for a non-string; else a MarkdownRenderer whose props are the context's keys plus `value`=string, `nodeType`=`"Markdown"`, `metadata`=the (empty) extracted metadata, other keys unchanged |
| `Plugins.MarkdownCanHandle` | packages/vue-intlayer/src/plugins.ts:165-174 | true exactly for a plain object with `nodeType` and `content`, `nodeType` being `"Markdown"` |
| `Plugins.MarkdownTransform` | packages/vue-intlayer/src/plugins.ts:179-198 | null unless canHandle; else props are the context overridden by `value`=content, `nodeType`=`"Markdown"`, `metadata`=node's metadata (undefined if absent), other keys unchanged |
| `Plugins.PrimitiveDomainDisjoint` | packages/vue-intlayer/src/plugins.ts:70-101 | nothing intlayerNode accepts is accepted by vueNode or markdown |
| `Plugins.StringsAcceptedByBoth` | packages/vue-intlayer/src/plugins.ts:70-121 | every string is accepted by intlayerNode and markdownString; markdownString accepts only strings |
| `Plugins.VueNodeAndMarkdownOverlap` | packages/vue-intlayer/src/plugins.ts:97-173 | one object can satisfy both the vueNode and the markdown test |
| `Plugins.MarkdownTransformsNullOutsideDomain` | packages/vue-intlayer/src/plugins.ts:121-183 | each markdown transform returns null exactly where its canHandle is false |
| `Plugins.WithBasePlugins` | packages/vue-intlayer/src/getDictionary.ts:28-35 | intlayerNode, vueNode, markdown, then the extras in order; three entries when the extras are omitted |
| `Plugins.MarkdownStringNotInBase` | packages/vue-intlayer/src/getDictionary.ts:30-35 | the markdown-string plugin is not among the base plugins |
| `GetDictionary.DictionaryCoreCall` | packages/vue-intlayer/src/getDictionary.ts:30-54 | dictionary and locale forwarded unchanged, the plugin list as above; the unused `config` plays no part |
| `GetDictionary.GetDictionary` | packages/vue-intlayer/src/getDictionary.ts:22-55 | the result is the engine's answer to that call |
| `GetDictionary.OmittedExtrasAreEmpty` | packages/vue-intlayer/src/getDictionary.ts:28-35 | omitting the extras is passing `[]`: three plugins |
| `GetIntlayer.IntlayerCoreCall` | packages/vue-intlayer/src/getIntlayer.ts:30-43 | the key unchanged plus one `{locale, plugins}` object; an omitted locale stays undefined |
| `GetIntlayer.GetIntlayer` | packages/vue-intlayer/src/getIntlayer.ts:25-46 | the result is the engine's answer to that call |
| `GetIntlayer.SameListAsGetDictionary` | packages/vue-intlayer/src/getIntlayer.ts:30-35 | both accessors pass the engine the same locale and plugin list |

## Left out

- `IntlayerProvider.SetterStep`: the presence of `props.setLocale` is modelled, but not which function it is. A callback captured as the exposed setter at creation and one passed later are both recorded as `SetLocaleCalled`.
- The content engine (`getDictionary` and `getIntlayer` of `@intlayer/core`) is a function parameter. Its tree walk and plugin dispatch are not part of this model, and nothing is claimed about its result. So first-match dispatch, pass-through of unmatched nodes and recursion into nested content are not stated.
- The reactive wrappers (`useIntlayer.ts`, `useDictionary.ts`): Vue `computed`/`inject` wiring and memoisation are not modelled.
- `markdown/MarkdownRenderer.ts` and the editor components: UI and asynchronous rendering.
- `useLocaleCookie.ts`: the cookie read at load time is a parameter, and a write is a log entry. The cookie name and its attributes are not modelled.
- Vue internals. `h` keeps its arguments as given: Vue's children normalisation is not modelled (a single VNode wrapped in an array, a slot function turned into a slots object). `ref` is a plain field. `provide`/`inject` is the provider reference passed to `LocaleHook`. The `IntlayerProvider` component's `setup` and its prop defaults are not modelled.
- `IntlayerProvider.Provider.SetCurrentLocale`: the `key` argument of `useCrossFrameState` and any cross-frame sync are ignored, as in the code.
- Numbers are finite reals: NaN, the infinities and `-0` are not modelled.
- The `in` operator answers only for plain objects. Arrays and component objects carry none of the keys these tests ask about (`type`, `nodeType`, `content`).
- `Plugins.VueNodeCanHandle` is a boolean. The code returns the falsy operand itself (`0`, `""`, `null`) where the model returns false, and both are treated as falsy.
- The interpreter context passed to transforms is an object (a map). A non-object context, on which the destructuring in the code would throw, is not modelled.
- `null` passed as `additionalPlugins` (a TypeError at the spread) is not modelled. Only an omitted or given list is.
- Locales are compared as strings, which is what `toString()` gives for them.
