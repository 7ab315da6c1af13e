/**
 * getDictionary: builds the plugin list and hands the dictionary, the
 * locale and that list to the content engine, whose result it returns.
 */
module GetDictionary {
  import opened Wrappers
  import opened JsValues
  import opened Plugins

  /** The positional arguments of the engine's `getDictionary(dictionary, locale, plugins)`. */
  datatype DictionaryCall = DictionaryCall(dictionary: Value, locale: Option<string>, plugins: seq<Plugin>)

  /**
   * The call getDictionary makes: its arguments forwarded unchanged, behind
   * the base plugins. The `config` object it also builds is never passed on.
   */
  function DictionaryCoreCall(dictionary: Value, locale: Option<string>, additionalPlugins: Option<seq<Plugin>>): (c: DictionaryCall)
    ensures c.dictionary == dictionary && c.locale == locale
    ensures |c.plugins| == 3 + |additionalPlugins.OrElse([])|
    ensures c.plugins[..3] == [IntlayerNodePlugin, VueNodePlugin, MarkdownPlugin]
    ensures c.plugins[3..] == additionalPlugins.OrElse([])
    ensures forall i :: 0 <= i < 3 ==> c.plugins[i].id != MarkdownStringPlugin.id
  {
    DictionaryCall(dictionary, locale, WithBasePlugins(additionalPlugins))
  }

  /**
   * getDictionary(dictionary, locale, additionalPlugins), with the engine as a
   * parameter about which nothing is assumed.
   */
  function GetDictionary(dictionary: Value, locale: Option<string>, additionalPlugins: Option<seq<Plugin>>,
                         engine: DictionaryCall -> Value): (r: Value)
    ensures r == engine(DictionaryCall(dictionary, locale, WithBasePlugins(additionalPlugins)))
  {
    engine(DictionaryCoreCall(dictionary, locale, additionalPlugins))
  }

  /** Omitting the extras and passing [] make the same call. */
  lemma OmittedExtrasAreEmpty(dictionary: Value, locale: Option<string>)
    ensures DictionaryCoreCall(dictionary, locale, None) == DictionaryCoreCall(dictionary, locale, Some([]))
    ensures |DictionaryCoreCall(dictionary, locale, None).plugins| == 3
  {
  }
}
