/**
 * The four content plugins: each is an id, a `canHandle` type test over a
 * JavaScript value and a `transform` that builds a Vue node from the node
 * and the interpreter's context.
 */
module Plugins {
  import opened Wrappers
  import opened JsValues
  import opened VueElement

  /** The record every plugin is: `{ id, canHandle, transform }`. */
  datatype Plugin = Plugin(id: string, canHandle: Value -> bool, transform: (Value, Props) -> Value)

  const ContentSelector: Value := Component("ContentSelector")
  const EditedContentRenderer: Value := Component("EditedContentRenderer")
  const MarkdownRenderer: Value := Component("MarkdownRenderer")

  /** `NodeType.Markdown`. */
  const MarkdownNodeType: string := "Markdown"

  /** `getMarkdownMetadata(content)`: no metadata is ever extracted. */
  function GetMarkdownMetadata(content: string): (metadata: Props)
    ensures metadata.Keys == {}
  {
    map[]
  }

  /** `const { plugins, ...rest } = context`: the context without its `plugins` key. */
  function WithoutPlugins(context: Props): (rest: Props)
    ensures rest.Keys == context.Keys - {"plugins"}
    ensures forall k :: k in rest ==> rest[k] == context[k]
  {
    context - {"plugins"}
  }

  // ---------------------------------------------------------------------
  // intlayerNodePlugins
  // ---------------------------------------------------------------------

  /** `typeof node` is "bigint", "string" or "number". */
  predicate IntlayerNodeCanHandle(node: Value)
    ensures IntlayerNodeCanHandle(node) <==> node.BigInt? || node.Str? || node.Num?
  {
    TypeOf(node) == "bigint" || TypeOf(node) == "string" || TypeOf(node) == "number"
  }

  /**
   * A ContentSelector whose default slot renders an EditedContentRenderer
   * whose slot yields `rest.children`; both get the context minus `plugins`.
   * The node itself is not used.
   */
  function IntlayerNodeTransform(node: Value, context: Props): (r: Value)
    ensures r.Obj? && Get(r, "type") == ContentSelector
    ensures Get(r, "props") == Obj(WithoutPlugins(context))
    ensures Get(r, "children").Thunk? && Get(r, "children").result.Obj?
    ensures var inner := Get(r, "children").result;
            Get(inner, "type") == EditedContentRenderer && Get(inner, "props") == Get(r, "props") &&
            Get(inner, "children") == Thunk(if "children" in context then context["children"] else Undefined)
  {
    var rest := Obj(WithoutPlugins(context));
    H(ContentSelector, rest, Thunk(H(EditedContentRenderer, rest, Thunk(Get(rest, "children")))))
  }

  /** The transform's result depends on the context only. */
  lemma IntlayerNodeIgnoresNode(a: Value, b: Value, context: Props)
    ensures IntlayerNodeTransform(a, context) == IntlayerNodeTransform(b, context)
  {
  }

  const IntlayerNodePlugin: Plugin := Plugin("intlayer-node-plugin", IntlayerNodeCanHandle, IntlayerNodeTransform)

  // ---------------------------------------------------------------------
  // vueNodePlugins
  // ---------------------------------------------------------------------

  /** `node && typeof node === 'object' && 'type' in node && node.type === 'VueNode'`. */
  predicate VueNodeCanHandle(node: Value)
    ensures VueNodeCanHandle(node) <==> node.Obj? && "type" in node.fields && node.fields["type"] == Str("VueNode")
  {
    Truthy(node) && TypeOf(node) == "object" && HasKey(node, "type") && Get(node, "type") == Str("VueNode")
  }

  /** A ContentSelector with the context minus `plugins`, whose slot renders the node. */
  function VueNodeTransform(node: Value, context: Props): (r: Value)
    ensures r.Obj? && Get(r, "type") == ContentSelector
    ensures Get(r, "props") == Obj(WithoutPlugins(context))
    ensures Get(r, "children") == Thunk(RenderVueElement(node))
  {
    H(ContentSelector, Obj(WithoutPlugins(context)), Thunk(RenderVueElement(node)))
  }

  const VueNodePlugin: Plugin := Plugin("vue-node-plugin", VueNodeCanHandle, VueNodeTransform)

  // ---------------------------------------------------------------------
  // markdownStringPlugin
  // ---------------------------------------------------------------------

  /** `typeof node === 'string'`. */
  predicate MarkdownStringCanHandle(node: Value)
    ensures MarkdownStringCanHandle(node) <==> node.Str?
  {
    TypeOf(node) == "string"
  }

  /** The three props both markdown plugins put over the context. */
  function MarkdownOverrides(value: Value, metadata: Value): (overrides: Props)
    ensures overrides.Keys == {"value", "nodeType", "metadata"}
    ensures overrides["value"] == value && overrides["metadata"] == metadata
    ensures overrides["nodeType"] == Str(MarkdownNodeType)
  {
    map["value" := value, "nodeType" := Str(MarkdownNodeType), "metadata" := metadata]
  }

  /**
   * `null` for a non-string; for a string, a MarkdownRenderer whose props are
   * the context overridden with the string, the Markdown node type and `{}`.
   */
  function MarkdownStringTransform(node: Value, context: Props): (r: Value)
    ensures !node.Str? ==> r == Null
    ensures node.Str? ==> r.Obj? && Get(r, "type") == MarkdownRenderer && Get(r, "children") == Null
    ensures node.Str? ==> var props := Get(r, "props");
              && props.Obj?
              && props.fields.Keys == context.Keys + {"value", "nodeType", "metadata"}
              && props.fields["value"] == node
              && props.fields["nodeType"] == Str(MarkdownNodeType)
              && props.fields["metadata"] == Obj(GetMarkdownMetadata(node.s))
              && (forall k :: k in context && k !in {"value", "nodeType", "metadata"} ==> props.fields[k] == context[k])
  {
    if TypeOf(node) != "string" then Null
    else
      var metadata := GetMarkdownMetadata(node.s);
      var rendererProps := Spread(context, MarkdownOverrides(node, Obj(metadata)));
      H2(MarkdownRenderer, Obj(rendererProps))
  }

  const MarkdownStringPlugin: Plugin := Plugin("markdown-string-plugin", MarkdownStringCanHandle, MarkdownStringTransform)

  // ---------------------------------------------------------------------
  // markdownPlugin
  // ---------------------------------------------------------------------

  /** A non-null object with `nodeType` and `content`, whose `nodeType` is "Markdown". */
  predicate MarkdownCanHandle(node: Value)
    ensures MarkdownCanHandle(node) <==>
              node.Obj? && "nodeType" in node.fields && "content" in node.fields &&
              node.fields["nodeType"] == Str(MarkdownNodeType)
  {
    node != Null && TypeOf(node) == "object" && HasKey(node, "nodeType") && HasKey(node, "content") &&
    Get(node, "nodeType") == Str(MarkdownNodeType)
  }

  /**
   * `null` unless canHandle holds; otherwise a MarkdownRenderer whose props
   * are the context overridden with `value = content`, the Markdown node
   * type and the node's `metadata` (undefined when it has none).
   */
  function MarkdownTransform(node: Value, context: Props): (r: Value)
    ensures !MarkdownCanHandle(node) ==> r == Null
    ensures MarkdownCanHandle(node) ==> r.Obj? && Get(r, "type") == MarkdownRenderer && Get(r, "children") == Null
    ensures MarkdownCanHandle(node) ==> var props := Get(r, "props");
              && props.Obj?
              && props.fields.Keys == context.Keys + {"value", "nodeType", "metadata"}
              && props.fields["value"] == node.fields["content"]
              && props.fields["nodeType"] == Str(MarkdownNodeType)
              && props.fields["metadata"] == Get(node, "metadata")
              && (forall k :: k in context && k !in {"value", "nodeType", "metadata"} ==> props.fields[k] == context[k])
  {
    if !MarkdownCanHandle(node) then Null
    else
      var rendererProps := Spread(context, MarkdownOverrides(Get(node, "content"), Get(node, "metadata")));
      H2(MarkdownRenderer, Obj(rendererProps))
  }

  const MarkdownPlugin: Plugin := Plugin("markdown-plugin", MarkdownCanHandle, MarkdownTransform)

  // ---------------------------------------------------------------------
  // How the domains relate
  // ---------------------------------------------------------------------

  /** The primitive domain of intlayerNode is disjoint from the object domains of vueNode and markdown. */
  lemma PrimitiveDomainDisjoint(node: Value)
    ensures IntlayerNodeCanHandle(node) ==> !VueNodeCanHandle(node) && !MarkdownCanHandle(node)
  {
  }

  /** Every string is accepted by both intlayerNode and markdownString; markdownString accepts nothing else. */
  lemma StringsAcceptedByBoth(node: Value)
    ensures node.Str? ==> IntlayerNodeCanHandle(node) && MarkdownStringCanHandle(node)
    ensures MarkdownStringCanHandle(node) ==> IntlayerNodeCanHandle(node)
  {
  }

  /** The vueNode and markdown domains overlap: one object can satisfy both tests. */
  lemma VueNodeAndMarkdownOverlap()
    ensures var node := Obj(map["type" := Str("VueNode"), "nodeType" := Str(MarkdownNodeType), "content" := Str("")]);
            VueNodeCanHandle(node) && MarkdownCanHandle(node)
  {
  }

  /** The transforms' defensive re-checks: each markdown transform gives null exactly outside its canHandle. */
  lemma MarkdownTransformsNullOutsideDomain(node: Value, context: Props)
    ensures MarkdownStringTransform(node, context) == Null <==> !MarkdownStringCanHandle(node)
    ensures MarkdownTransform(node, context) == Null <==> !MarkdownCanHandle(node)
  {
  }

  // ---------------------------------------------------------------------
  // The plugin list handed to the engine
  // ---------------------------------------------------------------------

  /** `[intlayerNodePlugins, vueNodePlugins, markdownPlugin, ...additionalPlugins]`, extras defaulting to []. */
  function WithBasePlugins(additionalPlugins: Option<seq<Plugin>>): (plugins: seq<Plugin>)
    ensures |plugins| == 3 + |additionalPlugins.OrElse([])|
    ensures plugins[0].id == "intlayer-node-plugin" && plugins[1].id == "vue-node-plugin" && plugins[2].id == "markdown-plugin"
    ensures plugins[0] == IntlayerNodePlugin && plugins[1] == VueNodePlugin && plugins[2] == MarkdownPlugin
    ensures plugins[3..] == additionalPlugins.OrElse([])
    ensures additionalPlugins.None? ==> |plugins| == 3
  {
    [IntlayerNodePlugin, VueNodePlugin, MarkdownPlugin] + additionalPlugins.OrElse([])
  }

  /** The markdown-string plugin is never among the three base plugins. */
  lemma MarkdownStringNotInBase(additionalPlugins: Option<seq<Plugin>>)
    ensures forall i :: 0 <= i < 3 ==> WithBasePlugins(additionalPlugins)[i].id != MarkdownStringPlugin.id
  {
  }
}
