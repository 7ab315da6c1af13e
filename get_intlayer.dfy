/**
 * getIntlayer: builds the plugin list and hands the key and a single
 * `{ locale, plugins }` object to the content engine.
 */
module GetIntlayer {
  import opened Wrappers
  import opened JsValues
  import opened Plugins
  import GetDictionary

  /** The `{ locale, plugins }` object; an omitted locale stays undefined. */
  datatype IntlayerConfig = IntlayerConfig(locale: Option<string>, plugins: seq<Plugin>)

  /** The arguments of the engine's `getIntlayer(key, config)`. */
  datatype IntlayerCall = IntlayerCall(key: string, config: IntlayerConfig)

  /** The call getIntlayer makes: the key unchanged, the locale and the plugin list in one object. */
  function IntlayerCoreCall(key: string, locale: Option<string>, additionalPlugins: Option<seq<Plugin>>): (c: IntlayerCall)
    ensures c.key == key && c.config.locale == locale
    ensures |c.config.plugins| == 3 + |additionalPlugins.OrElse([])|
    ensures c.config.plugins[..3] == [IntlayerNodePlugin, VueNodePlugin, MarkdownPlugin]
    ensures c.config.plugins[3..] == additionalPlugins.OrElse([])
  {
    IntlayerCall(key, IntlayerConfig(locale, WithBasePlugins(additionalPlugins)))
  }

  /** getIntlayer(key, locale, additionalPlugins), with the engine as a parameter. */
  function GetIntlayer(key: string, locale: Option<string>, additionalPlugins: Option<seq<Plugin>>,
                       engine: IntlayerCall -> Value): (r: Value)
    ensures r == engine(IntlayerCall(key, IntlayerConfig(locale, WithBasePlugins(additionalPlugins))))
  {
    engine(IntlayerCoreCall(key, locale, additionalPlugins))
  }

  /** Both accessors hand the engine the same locale and the same plugin list. */
  lemma SameListAsGetDictionary(key: string, dictionary: Value, locale: Option<string>, additionalPlugins: Option<seq<Plugin>>)
    ensures var d := GetDictionary.DictionaryCoreCall(dictionary, locale, additionalPlugins);
            var c := IntlayerCoreCall(key, locale, additionalPlugins);
            c.config.plugins == d.plugins && c.config.locale == d.locale
  {
  }
}
