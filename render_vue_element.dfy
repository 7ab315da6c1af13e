/**
 * renderVueElement: a structural copy of a VNode tree, rebuilt with `h`.
 */
module VueElement {
  import opened JsValues

  /** `vnode && typeof vnode === 'object' && 'type' in vnode`: a value treated as a VNode. */
  predicate IsElement(v: Value)
    ensures IsElement(v) <==> v.Obj? && "type" in v.fields
  {
    Truthy(v) && TypeOf(v) == "object" && HasKey(v, "type")
  }

  /** `vnode.props || {}`. */
  function PropsOrEmpty(props: Value): (r: Value)
    ensures Truthy(r)
    ensures Truthy(props) ==> r == props
  {
    if Truthy(props) then props else Obj(map[])
  }

  /**
   * A non-element is returned as is. An element becomes `h(type, props || {},
   * children)`: array children mapped one by one, rendering those that are
   * elements; a single element child rendered; other truthy children kept;
   * falsy children dropped.
   */
  function RenderVueElement(vnode: Value): (r: Value)
    ensures !IsElement(vnode) ==> r == vnode
    ensures IsElement(vnode) ==> IsElement(r) && r.fields.Keys == {"type", "props", "children"}
    ensures IsElement(vnode) ==> r.fields["type"] == vnode.fields["type"]
    ensures IsElement(vnode) ==> r.fields["props"] == PropsOrEmpty(Get(vnode, "props"))
    ensures IsElement(vnode) && !Truthy(Get(vnode, "children")) ==> r.fields["children"] == Null
    decreases vnode
  {
    if !IsElement(vnode) then vnode
    else if "children" in vnode.fields && Truthy(vnode.fields["children"]) then
      var children := vnode.fields["children"];
      var rendered :=
        if children.Arr? then
          var items := children.items;
          Arr(seq(|items|, i requires 0 <= i < |items| =>
            if IsElement(items[i]) then RenderVueElement(items[i]) else items[i]))
        else if IsElement(children) then RenderVueElement(children)
        else children;
      H(vnode.fields["type"], PropsOrEmpty(Get(vnode, "props")), rendered)
    else
      H2(vnode.fields["type"], PropsOrEmpty(Get(vnode, "props")))
  }

  /** Array children keep their length and order; each child is rendered (non-elements are kept). */
  lemma RenderArrayChildren(vnode: Value, items: seq<Value>)
    requires IsElement(vnode) && Get(vnode, "children") == Arr(items)
    ensures var c := RenderVueElement(vnode).fields["children"];
            c.Arr? && |c.items| == |items| &&
            forall i :: 0 <= i < |items| ==> c.items[i] == RenderVueElement(items[i])
  {
  }

  /** A single, non-array, truthy child is rendered when it is an element and kept otherwise. */
  lemma RenderSingleChild(vnode: Value)
    requires IsElement(vnode) && Truthy(Get(vnode, "children")) && !Get(vnode, "children").Arr?
    ensures RenderVueElement(vnode).fields["children"] == RenderVueElement(Get(vnode, "children"))
  {
  }

  /**
   * Only `type`, `props` and `children` matter: two elements that agree on
   * them render alike; every other property (key, ref, ...) is dropped.
   */
  lemma RenderReadsOnlyTypePropsChildren(a: Value, b: Value)
    requires IsElement(a) && IsElement(b)
    requires Get(a, "type") == Get(b, "type") && Get(a, "props") == Get(b, "props")
    requires Get(a, "children") == Get(b, "children")
    ensures RenderVueElement(a) == RenderVueElement(b)
  {
  }

  /**
   * The shape renderVueElement produces: a non-element, or an element with
   * exactly type, truthy props and children that are null, or a rendered
   * element, or an array of rendered values, or another truthy non-element.
   */
  ghost predicate IsRendered(v: Value)
    decreases v
  {
    !IsElement(v) ||
    (v.fields.Keys == {"type", "props", "children"} && Truthy(v.fields["props"]) &&
     var c := v.fields["children"];
     c == Null ||
     (Truthy(c) &&
      if c.Arr? then forall i :: 0 <= i < |c.items| ==> IsRendered(c.items[i])
      else IsRendered(c)))
  }

  lemma {:induction false} RenderYieldsRendered(vnode: Value)
    ensures IsRendered(RenderVueElement(vnode))
    decreases vnode
  {
    if IsElement(vnode) && "children" in vnode.fields && Truthy(vnode.fields["children"]) {
      var children := vnode.fields["children"];
      var c := RenderVueElement(vnode).fields["children"];
      if children.Arr? {
        var items := children.items;
        forall i | 0 <= i < |items|
          ensures IsRendered(c.items[i])
        {
          if IsElement(items[i]) {
            RenderYieldsRendered(items[i]);
          }
        }
      } else if IsElement(children) {
        RenderYieldsRendered(children);
      }
    }
  }

  lemma {:induction false} RenderedIsFixpoint(v: Value)
    requires IsRendered(v)
    ensures RenderVueElement(v) == v
    decreases v
  {
    if IsElement(v) {
      var c := v.fields["children"];
      var r := RenderVueElement(v);
      if c != Null {
        if c.Arr? {
          var items := c.items;
          forall i | 0 <= i < |items|
            ensures RenderVueElement(items[i]) == items[i]
          {
            RenderedIsFixpoint(items[i]);
          }
          assert r.fields["children"].items == items;
        } else {
          RenderedIsFixpoint(c);
        }
      }
      assert r.fields == v.fields;
    }
  }

  /** Rendering an already rendered tree gives the same tree. */
  lemma RenderIdempotent(vnode: Value)
    ensures RenderVueElement(RenderVueElement(vnode)) == RenderVueElement(vnode)
  {
    RenderYieldsRendered(vnode);
    RenderedIsFixpoint(RenderVueElement(vnode));
  }
}
