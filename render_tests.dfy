/**
 * The cases of the instance-render test suite, each as a method that sets up
 * a fresh platform and host element, renders one component and returns what
 * the case inspects; the postconditions are the case's expectations.  Every
 * case holds for any set of standardized boolean attributes that contains
 * `checked` and not `my-attr-name`, or for any set at all where the case
 * does not depend on it.
 */
module RenderTests {
  import opened Wrappers
  import opened ClassNames
  import opened Attributes
  import opened VDom
  import opened Component
  import opened Runtime

  /** The element every case renders. */
  const TagId: ElementId := 1

  /** A fresh platform and a fresh `ion-tag` host element. */
  method BeforeEach(std: set<string>) returns (plt: Platform, elm: HostElement)
    ensures fresh(plt) && fresh(elm)
    ensures plt.booleanAttrs == std && plt.vnodeMap == map[] && plt.instanceMap == map[] && plt.styledElements == []
    ensures elm.id == TagId && elm.attributes == map[]
  {
    plt := new Platform(std);
    elm := new HostElement(TagId, "ion-tag");
  }

  /** The host vnode stored for the element, if any. */
  function StoredVNode(plt: Platform): Option<HostVNode>
    reads plt
  {
    if TagId in plt.vnodeMap then Some(plt.vnodeMap[TagId]) else None
  }

  /** An instance with the given render() output and fields, and no hostData(), mode or color. */
  function Bare(render: Option<RenderValue>, fields: map<string, Value>): Instance {
    Instance(render, None, "", "", fields)
  }

  /** A component whose one declared property `name` is reflected to `attr`. */
  function Reflected(name: string, ty: PropType, attr: string): ComponentMeta {
    ComponentMeta(None, [PropMeta(name, ty, attr, true)])
  }

  // ---------------------------------------------------------------------
  // Reflected properties
  // ---------------------------------------------------------------------

  method ReflectStandardBooleanFalse(std: set<string>) returns (checked: Option<string>)
    requires "checked" in std
    ensures checked == None
  {
    var plt, elm := BeforeEach(std);
    elm.SetAttribute("checked", "");
    var meta, inst := Reflected("checked", BooleanType, "checked"), Bare(None, map["checked" := Bool(false)]);
    assert meta.properties[0].reflectToAttr;
    RenderedAttribute(std, meta, inst, elm.attributes, "checked");
    DoRender(plt, elm, meta, inst);
    checked := elm.GetAttribute("checked");
  }

  method ReflectStandardBooleanTrue(std: set<string>) returns (checked: Option<string>)
    requires "checked" in std
    ensures checked == Some("")
  {
    var plt, elm := BeforeEach(std);
    var meta, inst := Reflected("checked", BooleanType, "checked"), Bare(None, map["checked" := Bool(true)]);
    assert meta.properties[0].reflectToAttr;
    RenderedAttribute(std, meta, inst, elm.attributes, "checked");
    DoRender(plt, elm, meta, inst);
    checked := elm.GetAttribute("checked");
  }

  /** A boolean on an attribute outside the standardized set is written as its string. */
  method ReflectNonStandardBoolean(std: set<string>, b: bool) returns (attr: Option<string>)
    requires "my-attr-name" !in std
    ensures attr == Some(if b then "true" else "false")
  {
    var plt, elm := BeforeEach(std);
    var meta, inst := Reflected("rflBool", BooleanType, "my-attr-name"), Bare(None, map["rflBool" := Bool(b)]);
    assert meta.properties[0].reflectToAttr;
    RenderedAttribute(std, meta, inst, elm.attributes, "my-attr-name");
    DoRender(plt, elm, meta, inst);
    attr := elm.GetAttribute("my-attr-name");
  }

  method ReflectNumberWithRender(std: set<string>) returns (attr: Option<string>)
    ensures attr == Some("88")
  {
    var plt, elm := BeforeEach(std);
    var meta := Reflected("rflNum", NumberType, "my-attr-name");
    var inst := Bare(Some(Single(H("div", "text"))), map["rflNum" := Num(88)]);
    RenderedAttribute(std, meta, inst, elm.attributes, "my-attr-name");
    assert IntToString(88) == "88";
    DoRender(plt, elm, meta, inst);
    attr := elm.GetAttribute("my-attr-name");
  }

  method ReflectStringWithHostData(std: set<string>) returns (isHost: bool, attr: Option<string>, hostAttr: Option<string>)
    ensures isHost
    ensures attr == Some("str") && hostAttr == Some("hello")
  {
    var plt, elm := BeforeEach(std);
    var meta := Reflected("rflStr", StringType, "my-attr-name");
    var inst := Instance(None, Some([("host-data", Plain(Str("hello")))]), "", "", map["rflStr" := Str("str")]);
    RenderedAttribute(std, meta, inst, elm.attributes, "my-attr-name");
    RenderedAttribute(std, meta, inst, elm.attributes, "host-data");
    DoRender(plt, elm, meta, inst);
    isHost := StoredVNode(plt).Some?;
    attr := elm.GetAttribute("my-attr-name");
    hostAttr := elm.GetAttribute("host-data");
  }

  // ---------------------------------------------------------------------
  // The render() output
  // ---------------------------------------------------------------------

  method RenderNull(std: set<string>) returns (vnode: Option<HostVNode>)
    ensures vnode.Some? && |vnode.value.children| == 1 && vnode.value.children[0] == Text("")
  {
    var plt, elm := BeforeEach(std);
    DoRender(plt, elm, ComponentMeta(None, []), Bare(Some(NullOutput), map[]));
    vnode := StoredVNode(plt);
  }

  method RenderSingle(std: set<string>) returns (vnode: Option<HostVNode>)
    ensures vnode.Some? && |vnode.value.children| == 1
    ensures vnode.value.children[0].Element? && vnode.value.children[0].tag == "div"
    ensures vnode.value.children[0].children == [Text("text")]
  {
    var plt, elm := BeforeEach(std);
    DoRender(plt, elm, ComponentMeta(None, []), Bare(Some(Single(H("div", "text"))), map[]));
    vnode := StoredVNode(plt);
  }

  method RenderArrayWithNulls(std: set<string>) returns (vnode: Option<HostVNode>)
    ensures vnode.Some? && |vnode.value.children| == 3
    ensures vnode.value.children[0] == Text("") && vnode.value.children[2] == Text("")
    ensures vnode.value.children[1].Element? && vnode.value.children[1].tag == "div"
    ensures vnode.value.children[1].children == [Text("text")]
  {
    var plt, elm := BeforeEach(std);
    var items := [None, Some(H("div", "text")), None];
    ChildrenKeepPositions(items);
    DoRender(plt, elm, ComponentMeta(None, []), Bare(Some(Many(items)), map[]));
    vnode := StoredVNode(plt);
  }

  method NothingToRender(std: set<string>) returns (vnode: Option<HostVNode>, attrs: map<string, string>)
    ensures vnode == None && attrs == map[]
  {
    var plt, elm := BeforeEach(std);
    DoRender(plt, elm, ComponentMeta(None, []), Bare(None, map[]));
    vnode := StoredVNode(plt);
    attrs := elm.attributes;
  }

  method StylesWithoutRender(std: set<string>) returns (styled: seq<ElementId>)
    ensures styled == [TagId]
  {
    var plt, elm := BeforeEach(std);
    DoRender(plt, elm, ComponentMeta(None, []), Bare(None, map[]));
    styled := plt.styledElements;
  }

  // ---------------------------------------------------------------------
  // hostData() and the theme
  // ---------------------------------------------------------------------

  /** TrueTokens unfolded once on an entry put in front. */
  lemma TrueTokensCons(e: (string, bool), m: ClassMap)
    ensures TrueTokens([e] + m) == (if e.1 then Tokens(e.0) else []) + TrueTokens(m)
  {
    assert ([e] + m)[1..] == m;
  }

  /** The class object of the "should set classes" case, in literal order. */
  const ClassObject: ClassMap :=
    [("a", true), ("b", false), (" clAss   ", true), ("My-class_ ", true), ("not-a-class", false)]

  lemma TokensOfClassObjectKeys()
    ensures Tokens("a") == ["a"]
    ensures Tokens(" clAss   ") == ["clAss"]
    ensures Tokens("My-class_ ") == ["My-class_"]
  {
    assert "a" == "" + "a" + "";
    TokensPadded("", "a", "");
    assert " clAss   " == " " + "clAss" + "   ";
    TokensPadded(" ", "clAss", "   ");
    assert "My-class_ " == "" + "My-class_" + " ";
    TokensPadded("", "My-class_", " ");
  }

  lemma ClassObjectTrueTokens()
    ensures TrueTokens(ClassObject) == ["a", "clAss", "My-class_"]
  {
    TokensOfClassObjectKeys();
    var e4 := [("not-a-class", false)];
    TrueTokensCons(("not-a-class", false), []);
    var e3 := [("My-class_ ", true)] + e4;
    TrueTokensCons(("My-class_ ", true), e4);
    var e2 := [(" clAss   ", true)] + e3;
    TrueTokensCons((" clAss   ", true), e3);
    var e1 := [("b", false)] + e2;
    TrueTokensCons(("b", false), e2);
    TrueTokensCons(("a", true), e1);
    assert ClassObject == [("a", true)] + e1;
  }

  /** The keys of the case's class object are distinct. */
  lemma ClassObjectKeys()
    ensures FreshKeys([], ClassObject)
  {
  }

  /** A class object whose keys are distinct is built as written. */
  lemma ClassObjectAsWritten(m: ClassMap)
    requires FreshKeys([], m)
    ensures PutAll([], m) == m
  {
    PutAllFresh([], m);
    assert [] + m == m;
  }

  lemma LoneClassObjectMap(m: ClassMap)
    requires FreshKeys([], m)
    ensures HostClassMap([("class", Object(m))]) == m
  {
    LastEntryAt([("class", Object(m))], 0, "class");
    ClassObjectAsWritten(m);
  }

  /** A lone class object with distinct keys and distinct included names, without a theme, gives those names. */
  lemma DistinctClassObject(meta: ComponentMeta, inst: Instance, m: ClassMap, ts: seq<string>)
    requires meta.theme.None? && inst.hostData == Some([("class", Object(m))])
    requires FreshKeys([], m) && TrueTokens(m) == ts && NoDups(ts)
    ensures HostClasses(meta, inst) == ts
  {
    LoneClassObjectMap(m);
    NormalizeMapDistinct(m);
    UnthemedClasses(meta, inst);
  }

  lemma ClassObjectNamesDistinct()
    ensures NoDups(["a", "clAss", "My-class_"])
  {
  }

  lemma ClassObjectResolved(meta: ComponentMeta, inst: Instance)
    requires meta.theme.None? && inst.hostData == Some([("class", Object(ClassObject))])
    ensures HostClasses(meta, inst) == ["a", "clAss", "My-class_"]
  {
    ClassObjectTrueTokens();
    ClassObjectNamesDistinct();
    ClassObjectKeys();
    DistinctClassObject(meta, inst, ClassObject, ["a", "clAss", "My-class_"]);
  }

  method HostDataClasses(std: set<string>) returns (classes: seq<string>)
    ensures classes == ["a", "clAss", "My-class_"]
  {
    var plt, elm := BeforeEach(std);
    var meta := ComponentMeta(None, []);
    var inst := Instance(None, Some([("class", Object(ClassObject))]), "", "", map[]);
    FreshClassList(std, meta, inst, elm.attributes);
    ClassObjectResolved(meta, inst);
    DoRender(plt, elm, meta, inst);
    classes := elm.ClassList();
  }

  /** The class string of the "should set attributes" case, "a b c  my-class", by its names and the whitespace runs between them. */
  function AttributeClassString(): string {
    Spaced(["a", "b", "c", "my-class"], [" ", " ", "  "])
  }

  lemma AttributeClassStringIs()
    ensures AttributeClassString() == "a b c  my-class"
  {
  }

  /** The record of the "should set attributes" case, in literal order, with class string `cls`. */
  function AttributeRecord(cls: string): HostData {
    [("side", Plain(Str("  left   top "))),
     ("class", Plain(Str(cls))),
     ("empty", Plain(Str(""))),
     ("type", Plain(Null)),
     ("something", Plain(Null)),
     ("number", Plain(Num(12))),
     ("appear", Plain(Bool(true))),
     ("no-appear", Plain(Bool(false)))]
  }

  /** Without a theme the class list is hostData()'s alone. */
  lemma UnthemedClasses(meta: ComponentMeta, inst: Instance)
    requires meta.theme.None?
    ensures HostClasses(meta, inst) == NormalizeMap(HostClassMap(HostDataOf(inst)))
  {
    assert TrueEntries([]) == [];
  }

  /** A class string whose names are distinct becomes those names. */
  lemma DistinctClassString(hd: HostData, s: string, ts: seq<string>)
    requires LastEntry(hd, "class") == Some(Plain(Str(s))) && Tokens(s) == ts && NoDups(ts)
    ensures NormalizeMap(HostClassMap(hd)) == ts
  {
    HostClassString(hd, s);
    DedupOfDistinct(ts);
  }

  lemma TokensOfAttributeClassString()
    ensures Tokens(AttributeClassString()) == ["a", "b", "c", "my-class"]
  {
    var s := AttributeClassString();
    TokensOfSpaced("", ["a", "b", "c", "my-class"], [" ", " ", "  "], "");
    assert "" + s + "" == s;
  }

  lemma AttributeRecordClasses(meta: ComponentMeta, inst: Instance, cls: string)
    requires meta.theme.None? && inst.hostData == Some(AttributeRecord(cls))
    requires Tokens(cls) == ["a", "b", "c", "my-class"]
    ensures HostClasses(meta, inst) == ["a", "b", "c", "my-class"]
  {
    LastEntryAt(AttributeRecord(cls), 1, "class");
    DistinctClassString(AttributeRecord(cls), cls, ["a", "b", "c", "my-class"]);
    UnthemedClasses(meta, inst);
  }

  lemma RenderedSide(std: set<string>, meta: ComponentMeta, inst: Instance, cls: string, attrs: map<string, string>)
    requires meta.properties == [] && inst.hostData == Some(AttributeRecord(cls))
    ensures Get(ElementAfter(attrs, BuildHostVNode(std, meta, inst).value), "side") == Some("  left   top ")
  {
    HostDataAttribute(std, meta, inst, attrs, 0);
  }

  lemma RenderedEmpty(std: set<string>, meta: ComponentMeta, inst: Instance, cls: string, attrs: map<string, string>)
    requires meta.properties == [] && inst.hostData == Some(AttributeRecord(cls))
    ensures Get(ElementAfter(attrs, BuildHostVNode(std, meta, inst).value), "empty") == Some("")
  {
    HostDataAttribute(std, meta, inst, attrs, 2);
  }

  lemma RenderedType(std: set<string>, meta: ComponentMeta, inst: Instance, cls: string, attrs: map<string, string>)
    requires meta.properties == [] && inst.hostData == Some(AttributeRecord(cls))
    ensures Get(ElementAfter(attrs, BuildHostVNode(std, meta, inst).value), "type") == None
  {
    HostDataAttribute(std, meta, inst, attrs, 3);
  }

  lemma RenderedSomething(std: set<string>, meta: ComponentMeta, inst: Instance, cls: string, attrs: map<string, string>)
    requires meta.properties == [] && inst.hostData == Some(AttributeRecord(cls))
    ensures Get(ElementAfter(attrs, BuildHostVNode(std, meta, inst).value), "something") == None
  {
    HostDataAttribute(std, meta, inst, attrs, 4);
  }

  lemma Twelve()
    ensures IntToString(12) == "12"
  {
  }

  lemma RenderedNumber(std: set<string>, meta: ComponentMeta, inst: Instance, cls: string, attrs: map<string, string>)
    requires meta.properties == [] && inst.hostData == Some(AttributeRecord(cls))
    ensures Get(ElementAfter(attrs, BuildHostVNode(std, meta, inst).value), "number") == Some("12")
  {
    HostDataAttribute(std, meta, inst, attrs, 5);
    Twelve();
  }

  lemma RenderedAppear(std: set<string>, meta: ComponentMeta, inst: Instance, cls: string, attrs: map<string, string>)
    requires meta.properties == [] && inst.hostData == Some(AttributeRecord(cls))
    ensures Get(ElementAfter(attrs, BuildHostVNode(std, meta, inst).value), "appear") == Some("true")
  {
    HostDataAttribute(std, meta, inst, attrs, 6);
  }

  lemma RenderedNoAppear(std: set<string>, meta: ComponentMeta, inst: Instance, cls: string, attrs: map<string, string>)
    requires meta.properties == [] && inst.hostData == Some(AttributeRecord(cls))
    ensures Get(ElementAfter(attrs, BuildHostVNode(std, meta, inst).value), "no-appear") == Some("false")
  {
    HostDataAttribute(std, meta, inst, attrs, 7);
  }

  /** The plain attributes of the "should set attributes" case, after a render. */
  lemma AttributeRecordAttrs(std: set<string>, meta: ComponentMeta, inst: Instance, cls: string, attrs: map<string, string>)
    requires meta.properties == [] && inst.hostData == Some(AttributeRecord(cls))
    ensures var a := ElementAfter(attrs, BuildHostVNode(std, meta, inst).value);
      Get(a, "side") == Some("  left   top ") && Get(a, "empty") == Some("")
      && Get(a, "type") == None && Get(a, "something") == None
      && Get(a, "number") == Some("12")
      && Get(a, "appear") == Some("true") && Get(a, "no-appear") == Some("false")
  {
    RenderedSide(std, meta, inst, cls, attrs);
    RenderedEmpty(std, meta, inst, cls, attrs);
    RenderedType(std, meta, inst, cls, attrs);
    RenderedSomething(std, meta, inst, cls, attrs);
    RenderedNumber(std, meta, inst, cls, attrs);
    RenderedAppear(std, meta, inst, cls, attrs);
    RenderedNoAppear(std, meta, inst, cls, attrs);
  }

  lemma JoinOfAttributeClasses()
    ensures Join(["a", "b", "c", "my-class"]) == "a b c my-class"
  {
  }

  /** The class list and class attribute of the "should set attributes" case. */
  lemma AttributeCaseClasses(std: set<string>, meta: ComponentMeta, inst: Instance)
    requires meta == ComponentMeta(None, []) && inst.hostData == Some(AttributeRecord(AttributeClassString()))
    ensures var a := ElementAfter(map[], BuildHostVNode(std, meta, inst).value);
      Tokens(ClassAttr(a)) == ["a", "b", "c", "my-class"] && Dedup(Tokens(ClassAttr(a))) == ["a", "b", "c", "my-class"]
      && Get(a, "class") == Some("a b c my-class")
  {
    FreshClassList(std, meta, inst, map[]);
    TokensOfAttributeClassString();
    AttributeRecordClasses(meta, inst, AttributeClassString());
    JoinOfAttributeClasses();
  }

  /** An attribute the record does not name is not written. */
  lemma AttributeRecordOthers(std: set<string>, meta: ComponentMeta, inst: Instance, cls: string, attrs: map<string, string>, name: string)
    requires meta.properties == [] && inst.hostData == Some(AttributeRecord(cls))
    requires name != "class" && forall i :: 0 <= i < |AttributeRecord(cls)| ==> AttributeRecord(cls)[i].0 != name
    ensures Get(ElementAfter(attrs, BuildHostVNode(std, meta, inst).value), name) == Get(attrs, name)
  {
    RenderedAttribute(std, meta, inst, attrs, name);
  }

  /** The names of the "should set attributes" record, other than `type` and `something`, which are null. */
  predicate AttributeRecordName(name: string) {
    name == "side" || name == "class" || name == "empty" || name == "number" || name == "appear" || name == "no-appear"
  }

  /** The record's keys are the six names and `type` and `something`. */
  lemma AttributeRecordUnnamed(cls: string, name: string)
    requires !AttributeRecordName(name) && name != "type" && name != "something"
    ensures forall i :: 0 <= i < |AttributeRecord(cls)| ==> AttributeRecord(cls)[i].0 != name
  {
  }

  /** On a fresh element the case leaves no attribute but those the record names with a value. */
  lemma AttributeRecordKey(std: set<string>, meta: ComponentMeta, inst: Instance, cls: string, name: string)
    requires meta.properties == [] && inst.hostData == Some(AttributeRecord(cls))
    requires name in ElementAfter(map[], BuildHostVNode(std, meta, inst).value)
    ensures AttributeRecordName(name)
  {
    if !AttributeRecordName(name) {
      if name == "type" {
        RenderedType(std, meta, inst, cls, map[]);
      } else if name == "something" {
        RenderedSomething(std, meta, inst, cls, map[]);
      } else {
        AttributeRecordUnnamed(cls, name);
        AttributeRecordOthers(std, meta, inst, cls, map[], name);
      }
    }
  }

  method HostDataAttributes(std: set<string>) returns (classes: seq<string>, attrs: map<string, string>)
    ensures forall name :: name in attrs ==> AttributeRecordName(name)
    ensures classes == ["a", "b", "c", "my-class"]
    ensures Get(attrs, "class") == Some("a b c my-class")
    ensures Get(attrs, "side") == Some("  left   top ") && Get(attrs, "empty") == Some("")
    ensures Get(attrs, "type") == None && Get(attrs, "something") == None
    ensures Get(attrs, "number") == Some("12")
    ensures Get(attrs, "appear") == Some("true") && Get(attrs, "no-appear") == Some("false")
  {
    var plt, elm := BeforeEach(std);
    var meta := ComponentMeta(None, []);
    var inst := Instance(None, Some(AttributeRecord(AttributeClassString())), "", "", map[]);
    AttributeCaseClasses(std, meta, inst);
    AttributeRecordAttrs(std, meta, inst, AttributeClassString(), map[]);
    DoRender(plt, elm, meta, inst);
    classes := elm.ClassList();
    attrs := elm.attributes;
    forall name | name in attrs ensures AttributeRecordName(name) {
      AttributeRecordKey(std, meta, inst, AttributeClassString(), name);
    }
  }

  // ---------------------------------------------------------------------
  // The theme
  // ---------------------------------------------------------------------

  /** A component with theme `my-component` and no declared property. */
  function MyComponent(): ComponentMeta {
    ComponentMeta(Some("my-component"), [])
  }

  /** Without hostData(), the class list is the theme classes, when they are distinct names. */
  lemma ThemeOnlyClasses(meta: ComponentMeta, inst: Instance)
    requires inst.hostData.None? && AllTokens(ThemeOf(meta, inst)) && NoDups(ThemeOf(meta, inst))
    ensures HostClasses(meta, inst) == ThemeOf(meta, inst)
  {
    HostClassesThenTheme(meta, inst);
    AddAllFresh([], ThemeOf(meta, inst));
    assert [] + ThemeOf(meta, inst) == ThemeOf(meta, inst);
  }

  lemma ThemeNames()
    ensures ThemeClasses("my-component", "", "") == ["my-component"]
    ensures ThemeClasses("my-component", "ios", "") == ["my-component", "my-component-ios"]
    ensures ThemeClasses("my-component", "md", "main")
      == ["my-component", "my-component-md", "my-component-main", "my-component-md-main"]
  {
    assert "my-component" + "-" + "ios" == "my-component-ios";
    assert "my-component" + "-" + "md" == "my-component-md";
    assert "my-component" + "-" + "main" == "my-component-main";
    assert "my-component" + "-" + "md" + "-" + "main" == "my-component-md-main";
  }

  lemma ThemeNamesAreTokens()
    ensures AllTokens(["my-component"])
    ensures AllTokens(["my-component", "my-component-ios"])
    ensures AllTokens(["my-component", "my-component-md", "my-component-main", "my-component-md-main"])
  {
  }

  method Theme(std: set<string>) returns (classes: seq<string>)
    ensures classes == ["my-component"]
  {
    var plt, elm := BeforeEach(std);
    var meta, inst := MyComponent(), Bare(None, map[]);
    ThemeNames();
    ThemeNamesAreTokens();
    ThemeOnlyClasses(meta, inst);
    FreshClassList(std, meta, inst, elm.attributes);
    DoRender(plt, elm, meta, inst);
    classes := elm.ClassList();
  }

  method ThemeWithMode(std: set<string>) returns (classes: seq<string>, styled: seq<ElementId>)
    ensures classes == ["my-component", "my-component-ios"]
    ensures styled == [TagId]
  {
    var plt, elm := BeforeEach(std);
    var meta, inst := MyComponent(), Instance(None, None, "ios", "", map[]);
    ThemeNames();
    ThemeNamesAreTokens();
    ThemeOnlyClasses(meta, inst);
    FreshClassList(std, meta, inst, elm.attributes);
    DoRender(plt, elm, meta, inst);
    classes := elm.ClassList();
    styled := plt.styledElements;
  }

  method ThemeWithModeAndColor(std: set<string>) returns (classes: seq<string>)
    ensures classes == ["my-component", "my-component-md", "my-component-main", "my-component-md-main"]
  {
    var plt, elm := BeforeEach(std);
    var meta, inst := MyComponent(), Instance(None, None, "md", "main", map[]);
    ThemeNames();
    ThemeNamesAreTokens();
    ThemeOnlyClasses(meta, inst);
    FreshClassList(std, meta, inst, elm.attributes);
    DoRender(plt, elm, meta, inst);
    classes := elm.ClassList();
  }

  // ---------------------------------------------------------------------
  // A class object beside plain attributes, with and without a theme
  // ---------------------------------------------------------------------

  /** The record of the last two cases: three plain entries, then the class object `cls`. */
  function ObjectRecord(cls: ClassMap): HostData {
    [("type", Plain(Null)), ("number", Plain(Num(12))), ("appear", Plain(Str("true"))), ("class", Object(cls))]
  }

  lemma ObjectRecordType(std: set<string>, meta: ComponentMeta, inst: Instance, cls: ClassMap, attrs: map<string, string>)
    requires meta.properties == [] && inst.hostData == Some(ObjectRecord(cls))
    ensures Get(ElementAfter(attrs, BuildHostVNode(std, meta, inst).value), "type") == None
  {
    HostDataAttribute(std, meta, inst, attrs, 0);
  }

  lemma ObjectRecordNumber(std: set<string>, meta: ComponentMeta, inst: Instance, cls: ClassMap, attrs: map<string, string>)
    requires meta.properties == [] && inst.hostData == Some(ObjectRecord(cls))
    ensures Get(ElementAfter(attrs, BuildHostVNode(std, meta, inst).value), "number") == Some("12")
  {
    HostDataAttribute(std, meta, inst, attrs, 1);
    Twelve();
  }

  lemma ObjectRecordAppear(std: set<string>, meta: ComponentMeta, inst: Instance, cls: ClassMap, attrs: map<string, string>)
    requires meta.properties == [] && inst.hostData == Some(ObjectRecord(cls))
    ensures Get(ElementAfter(attrs, BuildHostVNode(std, meta, inst).value), "appear") == Some("true")
  {
    HostDataAttribute(std, meta, inst, attrs, 2);
  }

  /** An attribute the record does not name is not written. */
  lemma ObjectRecordOthers(std: set<string>, meta: ComponentMeta, inst: Instance, cls: ClassMap, attrs: map<string, string>, name: string)
    requires meta.properties == [] && inst.hostData == Some(ObjectRecord(cls))
    requires name != "class" && forall i :: 0 <= i < |ObjectRecord(cls)| ==> ObjectRecord(cls)[i].0 != name
    ensures Get(ElementAfter(attrs, BuildHostVNode(std, meta, inst).value), name) == Get(attrs, name)
  {
    RenderedAttribute(std, meta, inst, attrs, name);
  }

  /** The record's keys are `type`, `number`, `appear` and `class`. */
  lemma ObjectRecordUnnamed(cls: ClassMap, name: string)
    requires name != "type" && name != "number" && name != "appear" && name != "class"
    ensures forall i :: 0 <= i < |ObjectRecord(cls)| ==> ObjectRecord(cls)[i].0 != name
  {
  }

  /** On a fresh element the record leaves no attribute but `class`, `number` and `appear`. */
  lemma ObjectRecordKey(std: set<string>, meta: ComponentMeta, inst: Instance, cls: ClassMap, name: string)
    requires meta.properties == [] && inst.hostData == Some(ObjectRecord(cls))
    requires name in ElementAfter(map[], BuildHostVNode(std, meta, inst).value)
    ensures name == "class" || name == "number" || name == "appear"
  {
    if name != "class" && name != "number" && name != "appear" {
      if name == "type" {
        ObjectRecordType(std, meta, inst, cls, map[]);
      } else {
        ObjectRecordUnnamed(cls, name);
        ObjectRecordOthers(std, meta, inst, cls, map[], name);
      }
    }
  }

  /** A class object whose keys are distinct is the class map as written. */
  lemma ObjectRecordClassMap(cls: ClassMap)
    requires FreshKeys([], cls)
    ensures HostClassMap(ObjectRecord(cls)) == cls
  {
    LastEntryAt(ObjectRecord(cls), 3, "class");
    PutAllFresh([], cls);
    assert [] + cls == cls;
  }

  /** The class object of the "should set classes and attributes" case. */
  const PlainObject: ClassMap := [("a", true), ("hola", true), ("b", false), ("c", false)]

  lemma PlainObjectKeys()
    ensures FreshKeys([], PlainObject)
  {
  }

  lemma PlainObjectNames()
    ensures forall i :: 0 <= i < |PlainObject| ==> IsToken(PlainObject[i].0)
    ensures TrueKeys(PlainObject) == ["a", "hola"]
  {
  }

  lemma PlainObjectTrueTokens()
    ensures TrueTokens(PlainObject) == ["a", "hola"]
  {
    PlainObjectNames();
    TrueTokensOfNames(PlainObject);
  }

  /** Without a theme, a class object with distinct included names gives those names. */
  lemma ObjectRecordClasses(meta: ComponentMeta, inst: Instance, cls: ClassMap, ts: seq<string>)
    requires meta.theme.None? && inst.hostData == Some(ObjectRecord(cls))
    requires FreshKeys([], cls) && TrueTokens(cls) == ts && NoDups(ts)
    ensures HostClasses(meta, inst) == ts
  {
    ObjectRecordClassMap(cls);
    UnthemedClasses(meta, inst);
    NormalizeMapDistinct(cls);
  }

  lemma PlainObjectNamesDistinct()
    ensures NoDups(["a", "hola"])
  {
  }

  lemma PlainObjectClasses(meta: ComponentMeta, inst: Instance)
    requires meta.theme.None? && inst.hostData == Some(ObjectRecord(PlainObject))
    ensures HostClasses(meta, inst) == ["a", "hola"]
  {
    PlainObjectTrueTokens();
    PlainObjectNamesDistinct();
    PlainObjectKeys();
    ObjectRecordClasses(meta, inst, PlainObject, ["a", "hola"]);
  }

  lemma JoinOfPlainObjectClasses()
    ensures Join(["a", "hola"]) == "a hola"
  {
  }

  lemma ClassesAndAttributesCase(std: set<string>, meta: ComponentMeta, inst: Instance)
    requires meta == ComponentMeta(None, []) && inst.hostData == Some(ObjectRecord(PlainObject))
    ensures var a := ElementAfter(map[], BuildHostVNode(std, meta, inst).value);
      Tokens(ClassAttr(a)) == ["a", "hola"] && Dedup(Tokens(ClassAttr(a))) == ["a", "hola"] && Get(a, "class") == Some("a hola")
  {
    FreshClassList(std, meta, inst, map[]);
    PlainObjectClasses(meta, inst);
    JoinOfPlainObjectClasses();
  }

  method HostDataClassesAndAttributes(std: set<string>) returns (classes: seq<string>, attrs: map<string, string>)
    ensures forall name :: name in attrs ==> name == "class" || name == "number" || name == "appear"
    ensures classes == ["a", "hola"]
    ensures Get(attrs, "class") == Some("a hola")
    ensures Get(attrs, "number") == Some("12") && Get(attrs, "appear") == Some("true")
    ensures Get(attrs, "type") == None
  {
    var plt, elm := BeforeEach(std);
    var meta := ComponentMeta(None, []);
    var inst := Instance(None, Some(ObjectRecord(PlainObject)), "", "", map[]);
    ClassesAndAttributesCase(std, meta, inst);
    ObjectRecordType(std, meta, inst, PlainObject, map[]);
    ObjectRecordNumber(std, meta, inst, PlainObject, map[]);
    ObjectRecordAppear(std, meta, inst, PlainObject, map[]);
    DoRender(plt, elm, meta, inst);
    classes := elm.ClassList();
    attrs := elm.attributes;
    forall name | name in attrs ensures name == "class" || name == "number" || name == "appear" {
      ObjectRecordKey(std, meta, inst, PlainObject, name);
    }
  }

  /** The class object of the "should apply hostData() + theme" case, which maps the theme name to false. */
  const ThemedObject: ClassMap := [("a", true), ("hola", true), ("my-component", false), ("c", false)]

  /** The same object once the theme name is assigned true: the entry keeps its place. */
  const ThemedObjectAfter: ClassMap := [("a", true), ("hola", true), ("my-component", true), ("c", false)]

  /** The theme classes after the first, all absent from the object. */
  const ModeColorClasses: seq<string> := ["my-component-md", "my-component-main", "my-component-md-main"]

  lemma ThemedObjectKeys()
    ensures FreshKeys([], ThemedObject)
  {
  }

  lemma ThemedObjectPut()
    ensures Put(ThemedObject, "my-component", true) == ThemedObjectAfter
  {
    var m := ThemedObject;
    assert m[1..][1..] == [("my-component", false), ("c", false)];
    assert Put(m[1..][1..], "my-component", true) == [("my-component", true), ("c", false)];
    assert Put(m[1..], "my-component", true) == [("hola", true), ("my-component", true), ("c", false)];
  }

  lemma ModeColorClassesFresh()
    ensures forall k :: k in ModeColorClasses ==> Lookup(ThemedObjectAfter, k) != Some(false)
  {
    assert Keys(ThemedObjectAfter) == ["a", "hola", "my-component", "c"];
  }

  lemma ThemedObjectAfterNames()
    ensures forall i :: 0 <= i < |ThemedObjectAfter| ==> IsToken(ThemedObjectAfter[i].0)
    ensures TrueKeys(ThemedObjectAfter) == ["a", "hola", "my-component"]
  {
  }

  lemma ThemedObjectAfterTrueTokens()
    ensures TrueTokens(ThemedObjectAfter) == ["a", "hola", "my-component"]
  {
    ThemedObjectAfterNames();
    TrueTokensOfNames(ThemedObjectAfter);
  }

  /**
   * Assigning true to names that are all new, over a map whose included
   * names are distinct, appends them to its class list.
   */
  lemma PutAllFreshNames(m: ClassMap, ks: seq<string>, base: seq<string>)
    requires AllTokens(ks) && forall k :: k in ks ==> Lookup(m, k) != Some(false)
    requires TrueTokens(m) == base && NoDups(base) && NoDups(base + ks)
    ensures NormalizeMap(PutAll(m, TrueEntries(ks))) == base + ks
  {
    PutAllTrueNormalize(m, ks);
    NormalizeMapDistinct(m);
    AddAllFresh(base, ks);
  }

  /** Assigning the theme names true over the object: the first takes the false entry's place, the rest are new. */
  lemma ThemedObjectPutAll()
    ensures PutAll(ThemedObject, TrueEntries(["my-component"] + ModeColorClasses))
      == PutAll(ThemedObjectAfter, TrueEntries(ModeColorClasses))
  {
    var ks := ["my-component"] + ModeColorClasses;
    PutAllTrueCons(ThemedObject, ks);
    assert ks[1..] == ModeColorClasses;
    ThemedObjectPut();
  }

  lemma ThemedClassNames()
    ensures AllTokens(ModeColorClasses)
    ensures ["a", "hola", "my-component"] + ModeColorClasses
      == ["a", "hola", "my-component", "my-component-md", "my-component-main", "my-component-md-main"]
    ensures NoDups(["a", "hola", "my-component"]) && NoDups(["a", "hola", "my-component"] + ModeColorClasses)
  {
    ThemeNamesAreTokens();
  }

  lemma ThemedObjectAfterClasses()
    ensures NormalizeMap(PutAll(ThemedObjectAfter, TrueEntries(ModeColorClasses)))
      == ["a", "hola", "my-component", "my-component-md", "my-component-main", "my-component-md-main"]
  {
    ThemedClassNames();
    ModeColorClassesFresh();
    ThemedObjectAfterTrueTokens();
    PutAllFreshNames(ThemedObjectAfter, ModeColorClasses, ["a", "hola", "my-component"]);
  }

  lemma ThemedObjectClasses(meta: ComponentMeta, inst: Instance)
    requires meta == MyComponent() && inst.mode == "md" && inst.color == "main"
    requires inst.hostData == Some(ObjectRecord(ThemedObject))
    ensures HostClasses(meta, inst)
      == ["a", "hola", "my-component", "my-component-md", "my-component-main", "my-component-md-main"]
  {
    ThemeNames();
    assert ThemeOf(meta, inst) == ["my-component"] + ModeColorClasses;
    ThemedObjectKeys();
    ObjectRecordClassMap(ThemedObject);
    ThemedObjectPutAll();
    ThemedObjectAfterClasses();
  }

  lemma HostDataAndThemeCase(std: set<string>, meta: ComponentMeta, inst: Instance)
    requires meta == MyComponent() && inst.mode == "md" && inst.color == "main"
    requires inst.hostData == Some(ObjectRecord(ThemedObject))
    ensures var a := ElementAfter(map[], BuildHostVNode(std, meta, inst).value);
      Tokens(ClassAttr(a)) == ["a", "hola", "my-component", "my-component-md", "my-component-main", "my-component-md-main"]
      && Dedup(Tokens(ClassAttr(a))) == ["a", "hola", "my-component", "my-component-md", "my-component-main", "my-component-md-main"]
      && Get(a, "class") == Some(Join(["a", "hola", "my-component", "my-component-md", "my-component-main", "my-component-md-main"]))
  {
    FreshClassList(std, meta, inst, map[]);
    ThemedObjectClasses(meta, inst);
  }

  /**
   * A theme class is on the host even where hostData() maps it to false: the
   * theme names are assigned true after hostData()'s class object.
   */
  method HostDataAndTheme(std: set<string>) returns (classes: seq<string>, attrs: map<string, string>)
    ensures forall name :: name in attrs ==> name == "class" || name == "number" || name == "appear"
    ensures classes == ["a", "hola", "my-component", "my-component-md", "my-component-main", "my-component-md-main"]
    // the class attribute is "a hola my-component my-component-md my-component-main my-component-md-main"
    ensures Get(attrs, "class") == Some(Join(classes))
    ensures Get(attrs, "number") == Some("12") && Get(attrs, "appear") == Some("true")
    ensures Get(attrs, "type") == None
  {
    var plt, elm := BeforeEach(std);
    var meta := MyComponent();
    var inst := Instance(None, Some(ObjectRecord(ThemedObject)), "md", "main", map[]);
    HostDataAndThemeCase(std, meta, inst);
    ObjectRecordType(std, meta, inst, ThemedObject, map[]);
    ObjectRecordNumber(std, meta, inst, ThemedObject, map[]);
    ObjectRecordAppear(std, meta, inst, ThemedObject, map[]);
    DoRender(plt, elm, meta, inst);
    classes := elm.ClassList();
    attrs := elm.attributes;
    forall name | name in attrs ensures name == "class" || name == "number" || name == "appear" {
      ObjectRecordKey(std, meta, inst, ThemedObject, name);
    }
  }
}
