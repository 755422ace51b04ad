/**
 * Virtual nodes and the normalization of what a component's render()
 * returns into the children of the host vnode.
 */
module VDom {
  import opened Wrappers
  import opened Attributes

  /** A node below the host: an element with its children, or a text node. */
  datatype VNode = Element(tag: string, children: seq<VNode>) | Text(text: string)

  /** What render() returned: null or undefined, one vnode, or an array whose entries may be null. */
  datatype RenderValue = NullOutput | Single(node: VNode) | Many(items: seq<Option<VNode>>)

  /**
   * The root of a rendered tree, which stands for the host element itself:
   * the attribute writes and class names resolved for the host, and the
   * rendered children.
   */
  datatype HostVNode = HostVNode(attrs: seq<(string, AttrOp)>, classes: seq<string>, children: seq<VNode>)

  /** `h(tag, 0, text)`: an element holding one text child. */
  function H(tag: string, text: string): VNode {
    Element(tag, [Text(text)])
  }

  /** A null entry becomes an empty text node; a vnode stays as it is. */
  function NormalizeItem(item: Option<VNode>): VNode {
    if item.None? then Text("") else item.value
  }

  function NormalizeItems(items: seq<Option<VNode>>): seq<VNode> {
    if items == [] then [] else [NormalizeItem(items[0])] + NormalizeItems(items[1..])
  }

  /** The host vnode's children for what render() returned. */
  function Children(out: RenderValue): seq<VNode> {
    match out
    case NullOutput => [Text("")]
    case Single(node) => [node]
    case Many(items) => NormalizeItems(items)
  }

  /**
   * An array keeps its positions: the i-th child comes from the i-th entry,
   * null entries become empty text nodes and no gap is collapsed.
   */
  lemma {:induction false} ChildrenKeepPositions(items: seq<Option<VNode>>)
    ensures |Children(Many(items))| == |items|
    ensures forall i :: 0 <= i < |items| ==>
      Children(Many(items))[i] == (if items[i].None? then Text("") else items[i].value)
  {
    if items != [] {
      ChildrenKeepPositions(items[1..]);
      assert forall i :: 1 <= i < |items| ==> items[1..][i - 1] == items[i];
    }
  }
}
