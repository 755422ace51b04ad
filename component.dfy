/**
 * The host-data resolver and the build gate: what a component's metadata and
 * instance say must be on the host element, merged into one host vnode.
 */
module Component {
  import opened Wrappers
  import opened ClassNames
  import opened Attributes
  import opened VDom

  /** A declared property: its member name, type, attribute name and whether it is reflected. */
  datatype PropMeta = PropMeta(name: string, ty: PropType, attr: string, reflectToAttr: bool)

  /** The component's static metadata: `host.theme` and the declared properties, in order. */
  datatype ComponentMeta = ComponentMeta(theme: Option<string>, properties: seq<PropMeta>)

  /** A value in the hostData() record: a primitive, or a nested object from name to boolean. */
  datatype HostValue = Plain(v: Value) | Object(entries: seq<(string, bool)>)

  /** The object hostData() returns, its entries in literal order. */
  type HostData = seq<(string, HostValue)>

  /**
   * A component instance as the render step reads it: what render() and
   * hostData() return (None when the instance lacks the method), its `mode`
   * and `color` fields ("" when unset) and its other fields by name.
   */
  datatype Instance = Instance(
    render: Option<RenderValue>,
    hostData: Option<HostData>,
    mode: string,
    color: string,
    fields: map<string, Value>)

  // ---------------------------------------------------------------------
  // Theme classes
  // ---------------------------------------------------------------------

  /**
   * The classes `host.theme = t` derives: `t`; `t-mode` when there is a mode;
   * `t-color` when there is a color; `t-mode-color` when there are both.
   */
  function ThemeClasses(t: string, mode: string, color: string): seq<string> {
    [t]
    + (if mode != "" then [t + "-" + mode] else [])
    + (if color != "" then [t + "-" + color] else [])
    + (if mode != "" && color != "" then [t + "-" + mode + "-" + color] else [])
  }

  /** Two names joined by a hyphen make one name. */
  lemma HyphenatedName(t: string, part: string)
    requires IsToken(t) && IsToken(part)
    ensures IsToken(t + "-" + part)
  {
    var r := t + "-" + part;
    forall i | 0 <= i < |r| ensures !IsSpace(r[i]) {
      if i < |t| {
        assert r[i] == t[i];
      } else if i > |t| {
        assert r[i] == part[i - |t| - 1];
      }
    }
  }

  /**
   * With a theme name and a mode and color free of whitespace, the theme
   * classes are class names, the theme itself first, one more for each of
   * mode and color and one for the two together.
   */
  lemma ThemeClassesAreNames(t: string, mode: string, color: string)
    requires IsToken(t) && (mode == "" || IsToken(mode)) && (color == "" || IsToken(color))
    ensures var cs := ThemeClasses(t, mode, color);
      AllTokens(cs) && cs[0] == t
      && |cs| == 1 + (if mode != "" then 1 else 0) + (if color != "" then 1 else 0) + (if mode != "" && color != "" then 1 else 0)
  {
    if mode != "" {
      HyphenatedName(t, mode);
    }
    if color != "" {
      HyphenatedName(t, color);
    }
    if mode != "" && color != "" {
      HyphenatedName(t + "-" + mode, color);
    }
  }

  /** `t-a` and `t-b` are the same name only when `a` and `b` are. */
  lemma HyphenatedInjective(t: string, a: string, b: string)
    requires t + "-" + a == t + "-" + b
    ensures a == b
  {
    var n := |t| + 1;
    assert a == (t + "-" + a)[n..];
    assert b == (t + "-" + b)[n..];
  }

  /**
   * The theme classes are distinct except when mode and color are the same
   * nonempty word, which names `t-mode` twice.
   */
  lemma ThemeClassesDistinct(t: string, mode: string, color: string)
    ensures NoDups(ThemeClasses(t, mode, color)) <==> !(mode != "" && color != "" && mode == color)
  {
    var cs := ThemeClasses(t, mode, color);
    if mode != "" && color != "" && mode == color {
      assert cs[1] == cs[2];
    } else {
      forall i, j | 0 <= i < j < |cs| ensures cs[i] != cs[j] {
        if mode != "" && color != "" && i == 1 && j == 2 && cs[i] == cs[j] {
          HyphenatedInjective(t, mode, color);
        }
      }
    }
  }

  function ThemeOf(meta: ComponentMeta, inst: Instance): seq<string> {
    if meta.theme.None? then [] else ThemeClasses(meta.theme.value, inst.mode, inst.color)
  }

  /** Without `host.theme` there are no theme classes; with one, the theme itself comes first. */
  lemma ThemeOfEmpty(meta: ComponentMeta, inst: Instance)
    ensures ThemeOf(meta, inst) == [] <==> meta.theme.None?
    ensures meta.theme.Some? ==> ThemeOf(meta, inst)[0] == meta.theme.value
  {
  }

  // ---------------------------------------------------------------------
  // The hostData() record
  // ---------------------------------------------------------------------

  /** How a hostData() entry other than `class` is written; a nested object stringifies as JavaScript does. */
  function HostValueOp(v: HostValue): AttrOp {
    match v
    case Plain(p) => HostDataOp(p)
    case Object(_) => SetTo("[object Object]")
  }

  /** A hostData() entry removes its attribute exactly when it is null; a nested object is written all the same. */
  lemma HostValueOpRemoves(v: HostValue)
    ensures HostValueOp(v).Remove? <==> v == Plain(Null)
    ensures v.Object? ==> HostValueOp(v) == SetTo("[object Object]")
  {
  }

  /** The writes of the record's plain attributes, in entry order; `class` is handled apart. */
  function HostDataOps(hd: HostData): seq<(string, AttrOp)>
    decreases |hd|
  {
    if hd == [] then []
    else
      var rest := HostDataOps(hd[..|hd| - 1]);
      var e := hd[|hd| - 1];
      if e.0 == "class" then rest else rest + [(e.0, HostValueOp(e.1))]
  }

  /** The `class` entry never becomes a plain attribute write. */
  lemma {:induction false} HostDataOpsNoClass(hd: HostData, i: nat)
    requires i < |HostDataOps(hd)|
    ensures HostDataOps(hd)[i].0 != "class"
    decreases |hd|
  {
    var rest := HostDataOps(hd[..|hd| - 1]);
    if i < |rest| {
      HostDataOpsNoClass(hd[..|hd| - 1], i);
    }
  }

  /**
   * The record's `class` entry as a class map: a class object is built as its
   * literal is, each key keeping its first position and its last value; a
   * class string is split into names mapped to true.
   */
  function HostClassMap(hd: HostData): ClassMap {
    match LastEntry<HostValue>(hd, "class")
    case None => []
    case Some(Object(es)) => PutAll([], es)
    case Some(Plain(Null)) => []
    case Some(Plain(v)) => PutAll([], TrueEntries(Tokens(Stringify(v))))
  }

  /** Assigning entries in turn leaves each key with the value of its last entry, or as it was. */
  lemma {:induction false} PutAllLookup(m: ClassMap, es: seq<(string, bool)>, k: string)
    ensures Lookup(PutAll(m, es), k) == if LastEntry(es, k).Some? then LastEntry(es, k) else Lookup(m, k)
    decreases |es|
  {
    if es != [] {
      PutAllLookup(Put(m, es[0].0, es[0].1), es[1..], k);
      LastEntryCons(es[0], es[1..], k);
      assert es == [es[0]] + es[1..];
    }
  }

  /** Of a key a class object repeats, the last value counts. */
  lemma ClassObjectLastValue(hd: HostData, es: seq<(string, bool)>, k: string)
    requires LastEntry(hd, "class") == Some(Object(es))
    ensures Lookup(HostClassMap(hd), k) == LastEntry(es, k)
  {
    PutAllLookup([], es, k);
  }

  /** hostData()'s own attribute for `k` is the last entry with key `k`, coerced. */
  lemma {:induction false} HostDataOpsLast(hd: HostData, k: string)
    requires k != "class"
    ensures LastEntry(HostDataOps(hd), k) ==
      if LastEntry(hd, k).None? then None else Some(HostValueOp(LastEntry(hd, k).value))
    decreases |hd|
  {
    if hd != [] {
      HostDataOpsLast(hd[..|hd| - 1], k);
      var rest := HostDataOps(hd[..|hd| - 1]);
      var e := hd[|hd| - 1];
      if e.0 != "class" {
        assert (rest + [(e.0, HostValueOp(e.1))])[..|rest|] == rest;
      }
    }
  }

  // ---------------------------------------------------------------------
  // Reflected properties
  // ---------------------------------------------------------------------

  /** A missing field reads as undefined. */
  function Field(fields: map<string, Value>, name: string): Value {
    if name in fields then fields[name] else Null
  }

  /** The writes of the reflected properties, in declaration order. */
  function ReflectOps(std: set<string>, props: seq<PropMeta>, fields: map<string, Value>): seq<(string, AttrOp)>
    decreases |props|
  {
    if props == [] then []
    else
      var rest := ReflectOps(std, props[..|props| - 1], fields);
      var p := props[|props| - 1];
      if p.reflectToAttr then rest + [(p.attr, ReflectOp(std, p.attr, Field(fields, p.name)))] else rest
  }

  /** The last reflected property whose attribute is `a`. */
  function LastReflected(props: seq<PropMeta>, a: string): (r: Option<PropMeta>)
    ensures r.Some? ==> r.value.reflectToAttr && r.value.attr == a
    decreases |props|
  {
    if props == [] then None
    else if props[|props| - 1].reflectToAttr && props[|props| - 1].attr == a then Some(props[|props| - 1])
    else LastReflected(props[..|props| - 1], a)
  }

  /** A reflected attribute is written as its last reflected property's value dictates. */
  lemma {:induction false} ReflectOpsLast(std: set<string>, props: seq<PropMeta>, fields: map<string, Value>, a: string)
    ensures LastEntry(ReflectOps(std, props, fields), a) ==
      if LastReflected(props, a).None? then None
      else Some(ReflectOp(std, a, Field(fields, LastReflected(props, a).value.name)))
    decreases |props|
  {
    if props != [] {
      ReflectOpsLast(std, props[..|props| - 1], fields, a);
      var rest := ReflectOps(std, props[..|props| - 1], fields);
      var p := props[|props| - 1];
      if p.reflectToAttr {
        assert (rest + [(p.attr, ReflectOp(std, p.attr, Field(fields, p.name)))])[..|rest|] == rest;
      }
    }
  }

  /** The property declared last for attribute `a`, when it is reflected, is the one that decides `a`. */
  lemma {:induction false} LastReflectedIs(props: seq<PropMeta>, i: nat, a: string)
    requires i < |props| && props[i].reflectToAttr && props[i].attr == a
    requires forall j :: i < j < |props| ==> !(props[j].reflectToAttr && props[j].attr == a)
    ensures LastReflected(props, a) == Some(props[i])
    decreases |props|
  {
    if i < |props| - 1 {
      LastReflectedIs(props[..|props| - 1], i, a);
    }
  }

  predicate HasReflected(props: seq<PropMeta>) {
    exists i :: 0 <= i < |props| && props[i].reflectToAttr
  }

  // ---------------------------------------------------------------------
  // Resolution and the build gate
  // ---------------------------------------------------------------------

  /** The record hostData() returned; an instance without hostData() contributes nothing. */
  function HostDataOf(inst: Instance): HostData {
    if inst.hostData.Some? then inst.hostData.value else []
  }

  /** The host's attribute writes: hostData() first, then the reflected properties, which override it. */
  function HostOps(std: set<string>, meta: ComponentMeta, inst: Instance): seq<(string, AttrOp)> {
    HostDataOps(HostDataOf(inst)) + ReflectOps(std, meta.properties, inst.fields)
  }

  /** The host's class list: hostData()'s class map with every theme class then assigned true. */
  function HostClasses(meta: ComponentMeta, inst: Instance): seq<string> {
    NormalizeMap(PutAll(HostClassMap(HostDataOf(inst)), TrueEntries(ThemeOf(meta, inst))))
  }

  /** A host vnode is built only when there is something to render or to put on the host. */
  predicate ShouldBuild(meta: ComponentMeta, inst: Instance) {
    inst.render.Some? || inst.hostData.Some? || meta.theme.Some? || HasReflected(meta.properties)
  }

  /**
   * The host vnode of one render: the resolved host data, and as children
   * what render() returned, normalized (none when there is no render()).
   */
  function BuildHostVNode(std: set<string>, meta: ComponentMeta, inst: Instance): (r: Option<HostVNode>)
    ensures r.None? <==> !ShouldBuild(meta, inst)
    ensures r.Some? ==> AllTokens(r.value.classes) && NoDups(r.value.classes)
    ensures r.Some? && inst.render.Some? ==> r.value.children == Children(inst.render.value)
    ensures r.Some? && inst.render.None? ==> r.value.children == []
  {
    if !ShouldBuild(meta, inst) then None
    else
      var children := if inst.render.Some? then Children(inst.render.value) else [];
      Some(HostVNode(HostOps(std, meta, inst), HostClasses(meta, inst), children))
  }

  // ---------------------------------------------------------------------
  // Properties of the merged class list
  // ---------------------------------------------------------------------

  /** A class string in hostData() denotes its names, once each, in order. */
  lemma HostClassString(hd: HostData, s: string)
    requires LastEntry(hd, "class") == Some(Plain(Str(s)))
    ensures NormalizeMap(HostClassMap(hd)) == NormalizeString(s)
  {
    PutAllTrueNormalize([], Tokens(s));
  }

  /**
   * With no theme class held as false by hostData(), the class list is
   * hostData()'s classes in their order, followed by the theme classes
   * that are new.
   */
  lemma HostClassesThenTheme(meta: ComponentMeta, inst: Instance)
    requires AllTokens(ThemeOf(meta, inst))
    requires forall k :: k in ThemeOf(meta, inst) ==> Lookup(HostClassMap(HostDataOf(inst)), k) != Some(false)
    ensures HostClasses(meta, inst) == AddAll(NormalizeMap(HostClassMap(HostDataOf(inst))), ThemeOf(meta, inst))
  {
    PutAllTrueNormalize(HostClassMap(HostDataOf(inst)), ThemeOf(meta, inst));
  }

  /** Every theme class is on the host, even one that hostData() maps to false. */
  lemma ThemeClassesPresent(meta: ComponentMeta, inst: Instance, k: string)
    requires k in ThemeOf(meta, inst) && IsToken(k)
    ensures k in HostClasses(meta, inst)
  {
    PutAllTrueContains(HostClassMap(HostDataOf(inst)), ThemeOf(meta, inst), k);
  }

  /**
   * A name is on the host exactly when it is a theme class or a key that
   * hostData()'s class map ends up mapping to true holds it.
   */
  lemma HostClassesMember(meta: ComponentMeta, inst: Instance, k: string)
    requires AllTokens(ThemeOf(meta, inst))
    ensures var m := HostClassMap(HostDataOf(inst));
      k in HostClasses(meta, inst) <==> k in ThemeOf(meta, inst) || exists i :: 0 <= i < |m| && m[i].1 && k in Tokens(m[i].0)
  {
    var m := HostClassMap(HostDataOf(inst));
    var ks := ThemeOf(meta, inst);
    PutAllTrueMember(m, ks, k);
    TrueTokensMember(m, k);
    if exists j :: 0 <= j < |ks| && k in Tokens(ks[j]) {
      var j :| 0 <= j < |ks| && k in Tokens(ks[j]);
      TokensOfName(ks[j]);
    }
    if k in ks {
      var j :| 0 <= j < |ks| && ks[j] == k;
      TokensOfName(ks[j]);
    }
  }

  /** A class hostData() maps to false is on the host only when it is a theme class. */
  lemma FalseClassAbsent(meta: ComponentMeta, inst: Instance, k: string)
    requires AllTokens(ThemeOf(meta, inst)) && k !in ThemeOf(meta, inst)
    requires Lookup(HostClassMap(HostDataOf(inst)), k) == Some(false)
    requires forall i :: 0 <= i < |HostClassMap(HostDataOf(inst))| ==> HostClassMap(HostDataOf(inst))[i].1 ==> k !in Tokens(HostClassMap(HostDataOf(inst))[i].0)
    ensures k !in HostClasses(meta, inst)
  {
    HostClassesMember(meta, inst, k);
  }
}
