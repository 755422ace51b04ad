/**
 * The render step on live state: a host element whose attribute map is
 * updated in place, and a platform that stores each element's instance and
 * host vnode and records every style attachment.
 */
module Runtime {
  import opened Wrappers
  import opened ClassNames
  import opened Attributes
  import opened VDom
  import opened Component

  /** The identity of a host element, the key of the platform's maps. */
  type ElementId = nat

  /** The host element's class attribute, "" when it has none. */
  function ClassAttr(attrs: map<string, string>): string {
    if "class" in attrs then attrs["class"] else ""
  }

  /**
   * The host element's attributes after the host vnode is applied: the
   * attribute writes in order, then each class name added to the class list
   * (the class attribute is left alone when there is no class name to add).
   */
  function ElementAfter(attrs: map<string, string>, hv: HostVNode): map<string, string> {
    var a := ApplyOps(attrs, hv.attrs);
    if hv.classes == [] then a
    else a["class" := Join(AddAll(Dedup(Tokens(ClassAttr(a))), hv.classes))]
  }

  class HostElement {
    const id: ElementId
    const tagName: string
    var attributes: map<string, string>

    constructor (id: ElementId, tagName: string)
      ensures this.id == id && this.tagName == tagName
      ensures attributes == map[]
    {
      this.id := id;
      this.tagName := tagName;
      attributes := map[];
    }

    function GetAttribute(name: string): Option<string>
      reads this
    {
      Get(attributes, name)
    }

    /**
     * The class names of the class attribute as classList lists them: an
     * ordered set, each name once, where it first occurs.
     */
    function ClassList(): (cs: seq<string>)
      reads this
      ensures AllTokens(cs) && NoDups(cs)
      ensures forall t :: t in cs <==> t in Tokens(ClassAttr(attributes))
    {
      Dedup(Tokens(ClassAttr(attributes)))
    }

    method SetAttribute(name: string, value: string)
      modifies this
      ensures attributes == old(attributes)[name := value]
    {
      attributes := attributes[name := value];
    }

    method RemoveAttribute(name: string)
      modifies this
      ensures attributes == old(attributes) - {name}
    {
      attributes := attributes - {name};
    }

    /** classList.add: the class list gains the name unless present, and is written back joined by spaces. */
    method AddClass(c: string)
      requires IsToken(c)
      modifies this
      ensures attributes == old(attributes)["class" := Join(Add(old(ClassList()), c))]
    {
      attributes := attributes["class" := Join(Add(ClassList(), c))];
    }
  }

  class Platform {
    /** The standardized boolean attributes, which reflect by presence. */
    const booleanAttrs: set<string>
    var instanceMap: map<ElementId, Instance>
    var vnodeMap: map<ElementId, HostVNode>
    /** The element of each attachStyles call, in call order. */
    var styledElements: seq<ElementId>

    constructor (booleanAttrs: set<string>)
      ensures this.booleanAttrs == booleanAttrs
      ensures instanceMap == map[] && vnodeMap == map[] && styledElements == []
    {
      this.booleanAttrs := booleanAttrs;
      instanceMap := map[];
      vnodeMap := map[];
      styledElements := [];
    }

    method AttachStyles(elm: HostElement)
      modifies this
      ensures styledElements == old(styledElements) + [elm.id]
      ensures instanceMap == old(instanceMap) && vnodeMap == old(vnodeMap)
    {
      styledElements := styledElements + [elm.id];
    }
  }

  /** Performs the attribute writes in order. */
  method ApplyAttrOps(elm: HostElement, ops: seq<(string, AttrOp)>)
    modifies elm
    ensures elm.attributes == ApplyOps(old(elm.attributes), ops)
  {
    var i := 0;
    while i < |ops|
      invariant 0 <= i <= |ops|
      invariant elm.attributes == ApplyOps(old(elm.attributes), ops[..i])
    {
      var (name, op) := ops[i];
      match op {
        case SetTo(s) => elm.SetAttribute(name, s);
        case Remove => elm.RemoveAttribute(name);
      }
      assert ops[..i + 1][..i] == ops[..i];
      i := i + 1;
    }
    assert ops[..i] == ops;
  }

  /** The class attribute after adding a prefix of the names, one classList.add at a time. */
  function ClassesAdded(a: map<string, string>, cs: seq<string>, j: nat): map<string, string>
    requires j <= |cs|
  {
    if j == 0 then a else a["class" := Join(AddAll(Dedup(Tokens(ClassAttr(a))), cs[..j]))]
  }

  lemma ClassesAddedTokens(a: map<string, string>, cs: seq<string>, j: nat)
    requires j <= |cs| && AllTokens(cs)
    ensures Dedup(Tokens(ClassAttr(ClassesAdded(a, cs, j)))) == AddAll(Dedup(Tokens(ClassAttr(a))), cs[..j])
  {
    if j > 0 {
      assert AllTokens(cs[..j]);
      var r := AddAll(Dedup(Tokens(ClassAttr(a))), cs[..j]);
      TokensOfJoin(r);
      DedupOfDistinct(r);
    }
  }

  lemma ClassesAddedStep(a: map<string, string>, cs: seq<string>, j: nat)
    requires j < |cs| && AllTokens(cs)
    ensures ClassesAdded(a, cs, j + 1) ==
      ClassesAdded(a, cs, j)["class" := Join(Add(Dedup(Tokens(ClassAttr(ClassesAdded(a, cs, j)))), cs[j]))]
  {
    ClassesAddedTokens(a, cs, j);
    AddAllPrefix(Dedup(Tokens(ClassAttr(a))), cs, j);
    ClassesAddedOver(a, cs, j, Join(AddAll(Dedup(Tokens(ClassAttr(a))), cs[..j + 1])));
  }

  /** A later classList write replaces an earlier one. */
  lemma ClassesAddedOver(a: map<string, string>, cs: seq<string>, j: nat, v: string)
    requires j <= |cs|
    ensures ClassesAdded(a, cs, j)["class" := v] == a["class" := v]
  {
  }

  /** Adds the class names one after another. */
  method AddClasses(elm: HostElement, cs: seq<string>)
    requires AllTokens(cs)
    modifies elm
    ensures elm.attributes == if cs == [] then old(elm.attributes)
      else old(elm.attributes)["class" := Join(AddAll(Dedup(Tokens(ClassAttr(old(elm.attributes)))), cs))]
  {
    ghost var a := elm.attributes;
    var j := 0;
    while j < |cs|
      invariant 0 <= j <= |cs|
      invariant elm.attributes == ClassesAdded(a, cs, j)
    {
      ClassesAddedStep(a, cs, j);
      elm.AddClass(cs[j]);
      j := j + 1;
    }
    assert cs[..j] == cs;
  }

  /** Applies the host vnode's attribute writes and class names to the element. */
  method ApplyHostVNode(elm: HostElement, hv: HostVNode)
    requires AllTokens(hv.classes)
    modifies elm
    ensures elm.attributes == ElementAfter(old(elm.attributes), hv)
  {
    ApplyAttrOps(elm, hv.attrs);
    AddClasses(elm, hv.classes);
  }

  /**
   * One render of a host element: when the gate opens, the host vnode is
   * built, applied to the element and stored for the element; styles are
   * attached in every case.
   */
  method Render(plt: Platform, meta: ComponentMeta, elm: HostElement, inst: Instance)
    modifies plt, elm
    ensures var built := BuildHostVNode(plt.booleanAttrs, meta, inst);
      if built.Some? then
        plt.vnodeMap == old(plt.vnodeMap)[elm.id := built.value]
        && elm.attributes == ElementAfter(old(elm.attributes), built.value)
      else
        plt.vnodeMap == old(plt.vnodeMap) && elm.attributes == old(elm.attributes)
    ensures plt.styledElements == old(plt.styledElements) + [elm.id]
    ensures plt.instanceMap == old(plt.instanceMap)
  {
    var built := BuildHostVNode(plt.booleanAttrs, meta, inst);
    if built.Some? {
      ApplyHostVNode(elm, built.value);
      plt.vnodeMap := plt.vnodeMap[elm.id := built.value];
    }
    plt.AttachStyles(elm);
  }

  /** The test harness: registers the instance for the element, then renders it. */
  method DoRender(plt: Platform, elm: HostElement, meta: ComponentMeta, inst: Instance)
    modifies plt, elm
    ensures plt.instanceMap == old(plt.instanceMap)[elm.id := inst]
    ensures var built := BuildHostVNode(plt.booleanAttrs, meta, inst);
      if built.Some? then
        plt.vnodeMap == old(plt.vnodeMap)[elm.id := built.value]
        && elm.attributes == ElementAfter(old(elm.attributes), built.value)
      else
        plt.vnodeMap == old(plt.vnodeMap) && elm.attributes == old(elm.attributes)
    ensures plt.styledElements == old(plt.styledElements) + [elm.id]
  {
    plt.instanceMap := plt.instanceMap[elm.id := inst];
    Render(plt, meta, elm, inst);
  }

  // ---------------------------------------------------------------------
  // What a render leaves on the host element
  // ---------------------------------------------------------------------

  /**
   * The value of attribute `name` (other than `class`) after a render: set
   * by the last reflected property targeting it, else by hostData()'s entry
   * for it, else as it was before.
   */
  function HostAttribute(std: set<string>, meta: ComponentMeta, inst: Instance, prior: Option<string>, name: string): Option<string> {
    var p := LastReflected(meta.properties, name);
    var e := LastEntry(HostDataOf(inst), name);
    if p.Some? then Written(prior, Some(ReflectOp(std, name, Field(inst.fields, p.value.name))))
    else if e.Some? then Written(prior, Some(HostValueOp(e.value)))
    else prior
  }

  lemma RenderedAttribute(std: set<string>, meta: ComponentMeta, inst: Instance, attrs: map<string, string>, name: string)
    requires ShouldBuild(meta, inst) && name != "class"
    ensures Get(ElementAfter(attrs, BuildHostVNode(std, meta, inst).value), name)
      == HostAttribute(std, meta, inst, Get(attrs, name), name)
  {
    var hv := BuildHostVNode(std, meta, inst).value;
    var a := HostDataOps(HostDataOf(inst));
    var b := ReflectOps(std, meta.properties, inst.fields);
    assert hv.attrs == a + b;
    ApplyOpsLastWriter(attrs, a + b, name);
    LastEntryAppend(a, b, name);
    HostDataOpsLast(HostDataOf(inst), name);
    ReflectOpsLast(std, meta.properties, inst.fields, name);
  }

  /**
   * An attribute that hostData() sets and no reflected property targets is
   * its last entry's value, coerced, after a render.
   */
  lemma HostDataAttribute(std: set<string>, meta: ComponentMeta, inst: Instance, attrs: map<string, string>, i: nat)
    requires ShouldBuild(meta, inst)
    requires i < |HostDataOf(inst)| && HostDataOf(inst)[i].0 != "class"
    requires forall j :: i < j < |HostDataOf(inst)| ==> HostDataOf(inst)[j].0 != HostDataOf(inst)[i].0
    requires LastReflected(meta.properties, HostDataOf(inst)[i].0).None?
    ensures var e := HostDataOf(inst)[i];
      Get(ElementAfter(attrs, BuildHostVNode(std, meta, inst).value), e.0) == Written(Get(attrs, e.0), Some(HostValueOp(e.1)))
  {
    var e := HostDataOf(inst)[i];
    LastEntryAt(HostDataOf(inst), i, e.0);
    RenderedAttribute(std, meta, inst, attrs, e.0);
  }

  /**
   * Reading a reflected attribute back as its property's declared type gives
   * the property's value, when no later property reflects to the same
   * attribute.
   */
  lemma ReflectedPropertyReadsBack(std: set<string>, meta: ComponentMeta, inst: Instance, attrs: map<string, string>, i: nat)
    requires i < |meta.properties|
    requires meta.properties[i].reflectToAttr && meta.properties[i].attr != "class"
    requires forall j :: i < j < |meta.properties| ==>
      !(meta.properties[j].reflectToAttr && meta.properties[j].attr == meta.properties[i].attr)
    requires HasType(Field(inst.fields, meta.properties[i].name), meta.properties[i].ty)
    ensures ShouldBuild(meta, inst)
    ensures var p := meta.properties[i];
      ReadAttr(std, p.attr, p.ty, Get(ElementAfter(attrs, BuildHostVNode(std, meta, inst).value), p.attr))
        == Field(inst.fields, p.name)
  {
    var p := meta.properties[i];
    assert HasReflected(meta.properties);
    LastReflectedIs(meta.properties, i, p.attr);
    RenderedAttribute(std, meta, inst, attrs, p.attr);
    ReflectRoundTrip(std, p.attr, p.ty, Field(inst.fields, p.name), attrs);
  }

  /**
   * On an element without a class attribute, a render leaves exactly the
   * resolved class list, serialized with single spaces.
   */
  lemma FreshClassList(std: set<string>, meta: ComponentMeta, inst: Instance, attrs: map<string, string>)
    requires ShouldBuild(meta, inst)
    requires "class" !in attrs && LastReflected(meta.properties, "class").None?
    ensures ClassAttr(ElementAfter(attrs, BuildHostVNode(std, meta, inst).value)) == Join(HostClasses(meta, inst))
    ensures Tokens(ClassAttr(ElementAfter(attrs, BuildHostVNode(std, meta, inst).value))) == HostClasses(meta, inst)
    ensures Dedup(Tokens(ClassAttr(ElementAfter(attrs, BuildHostVNode(std, meta, inst).value)))) == HostClasses(meta, inst)
  {
    var hv := BuildHostVNode(std, meta, inst).value;
    var a := HostDataOps(HostDataOf(inst));
    var b := ReflectOps(std, meta.properties, inst.fields);
    ApplyOpsLastWriter(attrs, a + b, "class");
    LastEntryAppend(a, b, "class");
    ReflectOpsLast(std, meta.properties, inst.fields, "class");
    assert LastEntry(hv.attrs, "class").None? by {
      if LastEntry(a, "class").Some? {
        var i :| 0 <= i < |a| && a[i].0 == "class";
        HostDataOpsNoClass(HostDataOf(inst), i);
      }
    }
    assert Tokens(ClassAttr(ApplyOps(attrs, hv.attrs))) == [];
    assert Dedup([]) == [];
    DedupOfDistinct(hv.classes);
    TokensOfJoin(hv.classes);
  }
}
