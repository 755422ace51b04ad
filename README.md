# Instance render of a host element

A Dafny model of one render of a component's host element in the stencil
component runtime. The behaviour modelled is what the instance-render test
suite `src/core/test/render.spec.ts` asserts. The runtime's `render`, `h` and
the test mocks are not part of this model: the suite is the only source, so
the model is built from its inputs and expected outputs.

Four parts make up one render:

- **Class names** (`class_names.dfy`, module `ClassNames`). A class string, or
  a class object from name to boolean, becomes a list of class names. The
  names have no whitespace and no repeats, and keep first-seen order. The
  class attribute is that list joined by single spaces, and the element's
  class list reads it back as an ordered set. A class object is an ordered
  map: assigning a key it already holds keeps the key's position. Of a key
  written twice in a class object or a hostData() record, the last value
  counts.
- **Attribute coercion** (`attributes.dfy`, module `Attributes`). A reflected
  property's value becomes an attribute write:
  - a boolean on a standardized boolean attribute is present as `""` or removed;
  - any other boolean is `"true"`/`"false"`;
  - numbers are decimal strings and strings are kept verbatim;
  - null and undefined remove the attribute.

  A hostData() value is stringified whatever its name. A list of writes
  applied in order leaves each attribute as its last write made it.
- **Host-data resolution and the build gate** (`component.dfy`, module
  `Component`). hostData()'s record, the theme classes from `host.theme`,
  `mode` and `color`, and the reflected properties merge into one host
  vnode. The theme classes are assigned true after hostData()'s class
  object, so a theme class hostData() maps to false is still present, in
  that key's position. A host vnode is built only when the component has a
  render(), a hostData(), a theme or a reflected property. Its children are
  render()'s output normalized (`vdom.dfy`, module `VDom`).
- **The render step on live state** (`runtime.dfy`, module `Runtime`).
  - `HostElement` holds the element's attribute map.
  - `Platform` holds the instance map, the host vnode map and the list of
    style attachments.
  - `Render` applies the host vnode to the element, stores it for the
    element and attaches styles in every case.
  - `DoRender` is the suite's harness.

`render_tests.dfy` (module `RenderTests`) states each `it(...)` case as a
method. Each method renders on a fresh platform and element. Its
postconditions are the case's expectations. The set of standardized boolean
attributes is a parameter: a case that depends on it requires `checked` in
the set and `my-attr-name` outside it.

## Model

| member | source | states |
|---|---|---|
| ClassNames.Word | src/core/test/render.spec.ts:252-258 | the first name of a class string is its longest whitespace-free prefix, ended by whitespace or by the end |
| ClassNames.Tokens | src/core/test/render.spec.ts:252-258 | splitting a class string yields only non-empty, whitespace-free names |
| ClassNames.TokensOfJoin | src/core/test/render.spec.ts:285-289 | a class list joined by single spaces splits back to the same list (the class attribute reads back as the class list) |
| ClassNames.Join | src/core/test/render.spec.ts:285-289 | the class attribute written from a class list, its names separated by single spaces; carries no ensures, and `TokensOfJoin` states that it splits back to the same list |
| ClassNames.TokensOfPrefix | src/core/test/render.spec.ts:255-256 | a name followed by whitespace or by nothing splits off as the first name |
| ClassNames.TokensSkipSpace | src/core/test/render.spec.ts:255 | leading whitespace contributes no name |
| ClassNames.TokensPadded | src/core/test/render.spec.ts:255-256 | a key with whitespace around it is trimmed to its name (`' clAss   '` is `clAss`) |
| ClassNames.TokensOfName | src/core/test/render.spec.ts:304-307 | a key without whitespace is one name, itself |
| ClassNames.TokensCons | src/core/test/render.spec.ts:272 | a name, then any run of whitespace, then more: the name comes first |
| ClassNames.TokensOfSpaced | src/core/test/render.spec.ts:272-285 | names separated by any amount of whitespace, with any whitespace around them, split back to exactly those names (`'a b c  my-class'`) |
| ClassNames.AddAll | src/core/test/render.spec.ts:403-410 | classList.add of names in turn: holds exactly the old and the added names, keeps the old list as its prefix, adds no repeat and keeps names whitespace-free |
| ClassNames.Add | src/core/test/render.spec.ts:403-410 | classList.add of one name; carries no ensures, and `AddAll`, `AddAllPrefix` and `AddAllFirst` characterize it: the old list stays a prefix and the name is held once |
| ClassNames.Dedup | src/core/test/render.spec.ts:264 | first-seen deduplication holds exactly the input's names, once each |
| ClassNames.AddAllPrefix | src/core/test/render.spec.ts:403-410 | adding one more name is one more classList.add |
| ClassNames.AddAllAppend | src/core/test/render.spec.ts:403-410 | adding two lists in turn is adding their concatenation |
| ClassNames.AddAllFirst | src/core/test/render.spec.ts:403-410 | names are added left to right |
| ClassNames.AddAllFresh | src/core/test/render.spec.ts:403-410 | adding names that are all new and distinct appends them in order |
| ClassNames.DedupOfDistinct | src/core/test/render.spec.ts:264 | a list without repeats is unchanged by deduplication |
| ClassNames.DedupIdempotent | src/core/test/render.spec.ts:264 | deduplicating twice is deduplicating once |
| ClassNames.DedupAppend | src/core/test/render.spec.ts:403-410 | the names of the first part come first, then the new names of the second |
| ClassNames.Keys | src/core/test/render.spec.ts:385-390 | a class object has one key per entry |
| ClassNames.Lookup | src/core/test/render.spec.ts:385-390 | a key is absent exactly when the object does not hold it; a found value is the one stored under it |
| ClassNames.Put | src/core/test/render.spec.ts:388 | after `m[k] = v`, `k` maps to `v` and every other key keeps its value |
| ClassNames.PutKeys | src/core/test/render.spec.ts:388-406 | assignment keeps the key order: an existing key stays where it was, a new key goes last |
| ClassNames.PutAll | src/core/test/render.spec.ts:385-410 | a class object's entries assigned in literal order; carries no ensures, and `Component.PutAllLookup` (last value per key), `PutAllFresh` (distinct keys give the object itself) and `PutAllTrueNormalize` characterize it |
| ClassNames.PutExistingTrue | src/core/test/render.spec.ts:403-410 | assigning true to a key already true changes nothing |
| ClassNames.PutNew | src/core/test/render.spec.ts:403-410 | assigning a new key appends its entry |
| ClassNames.TrueTokens | src/core/test/render.spec.ts:252-258 | the names of the keys mapped to true are whitespace-free names |
| ClassNames.TrueTokensOfNames | src/core/test/render.spec.ts:304-307 | when every key is one name, the included names are exactly the keys mapped to true, in order |
| ClassNames.TrueTokensMember | src/core/test/render.spec.ts:252-258 | a name is included exactly when some key mapped to true holds it |
| ClassNames.TrueTokensSnoc | src/core/test/render.spec.ts:403-410 | an entry added last contributes its names last |
| ClassNames.NormalizeString | src/core/test/render.spec.ts:272-285 | a class string denotes distinct whitespace-free names, exactly the names it contains |
| ClassNames.NormalizeMap | src/core/test/render.spec.ts:252-264 | a class object denotes distinct whitespace-free names, exactly those of its keys mapped to true |
| ClassNames.NormalizeMapMember | src/core/test/render.spec.ts:252-258 | a name is in the class list exactly when a key mapped to true holds it, so keys mapped to false contribute nothing |
| ClassNames.NormalizeMapDistinct | src/core/test/render.spec.ts:264 | when the included names are distinct, the class list is those names in key order |
| ClassNames.NormalizeIdempotent | src/core/test/render.spec.ts:285-289 | a class list serialized and normalized again is unchanged |
| ClassNames.NormalizeMapRoundTrip | src/core/test/render.spec.ts:315-317 | a class object's class list, serialized and read back, is that list again |
| ClassNames.TrueEntries | src/core/test/render.spec.ts:375-398 | each theme class becomes an assignment of true, in order |
| ClassNames.PutTrueNormalize | src/core/test/render.spec.ts:403-410 | assigning true to a name not held as false adds it to the class list as classList.add does |
| ClassNames.PutAllTrueNormalize | src/core/test/render.spec.ts:403-410 | assigning true to names none of which is held as false appends the new ones after the object's own classes, in order |
| ClassNames.PutAllTrueCons | src/core/test/render.spec.ts:403-410 | assigning a list of names true is assigning the first, then the rest |
| ClassNames.PutAllTrueStep | src/core/test/render.spec.ts:403-410 | once the first name is assigned, the rest are still class names none of which the map holds as false |
| ClassNames.PutTrueMember | src/core/test/render.spec.ts:385-410 | after assigning true to a key, a name is included exactly when the key holds it or it was included before |
| ClassNames.PutAllTrueMember | src/core/test/render.spec.ts:385-410 | after assigning true to a list of names, a name is included exactly when one of them holds it or it was included before |
| ClassNames.PutAllFresh | src/core/test/render.spec.ts:250-256 | entries whose keys are distinct and new are appended as written, so a class object with distinct keys is its own class map |
| ClassNames.PutAllTrueLookup | src/core/test/render.spec.ts:388-406 | a name assigned true maps to true whatever the object held before |
| ClassNames.PutAllTrueContains | src/core/test/render.spec.ts:388-406 | every name assigned true is in the class list |
| Attributes.DigitChar | src/core/test/render.spec.ts:147 | a digit value becomes the matching digit character |
| Attributes.NatToString | src/core/test/render.spec.ts:147 | a natural number's decimal string is non-empty, all digits, without a leading zero |
| Attributes.ParseNatToString | src/core/test/render.spec.ts:147 | reading a natural's decimal string gives the number back |
| Attributes.ParseIntToString | src/core/test/render.spec.ts:125-148 | a stringified integer reads back as the same integer |
| Attributes.IntToString | src/core/test/render.spec.ts:125-148 | a number written as a decimal string; carries no ensures, and `ParseIntToString` (reads back as the same integer) and `NatToString` (non-empty digits, no leading zero) characterize it |
| Attributes.HostDataOp | src/core/test/render.spec.ts:269-278 | a hostData() value removes the attribute exactly when it is null or undefined; a boolean becomes `"true"`/`"false"` whatever the attribute; a number becomes its decimal string, which reads back as the number; a string is written verbatim |
| Attributes.ReflectOp | src/core/test/render.spec.ts:18-178 | a reflected value removes its attribute exactly when it is null or undefined, or false on a standardized boolean attribute; true there is `""`; any other boolean is `"true"`/`"false"`; a number becomes its decimal string without leading zeros, which reads back as the number; a string is verbatim |
| Attributes.Stringify | src/core/test/render.spec.ts:269-278 | a hostData() value as JavaScript stringifies it; carries no ensures, and `HostDataOp` states its result per kind of value |
| Attributes.LastEntry | src/core/test/render.spec.ts:269-279 | a key has no last entry exactly when no entry has that key; for writes, an attribute has no last write exactly when none names it |
| Attributes.LastEntryAt | src/core/test/render.spec.ts:269-279 | a key's value is that of its last entry |
| Attributes.ApplyOpsLastWriter | src/core/test/render.spec.ts:33-38 | after the writes, each attribute is as its last write made it, or as it was before when nothing wrote it |
| Attributes.LastEntryAppend | src/core/test/render.spec.ts:150-178 | the last write in two lists in turn is the second list's, else the first's |
| Attributes.LastEntryCons | src/core/test/render.spec.ts:385-390 | an entry put in front counts only when no later entry has its key |
| Attributes.ReflectRoundTrip | src/core/test/render.spec.ts:18-148 | reading a reflected attribute back as the property's declared type gives the property's value |
| Attributes.ReadAttr | src/core/test/render.spec.ts:18-148 | not a function of the program: the model's read-back convention, by which the reflected attribute is read as a value of the property's declared type; carries no ensures, and `ReflectRoundTrip` states that a reflected value reads back as itself |
| Attributes.ApplyOps | src/core/test/render.spec.ts:33-38 | attribute writes applied in order; carries no ensures, and `ApplyOpsLastWriter` (each attribute as its last write made it) and `Runtime.ApplyAttrOps` characterize it |
| Attributes.ApplyOp | src/core/test/render.spec.ts:33-38 | one setAttribute or removeAttribute on the attribute map; carries no ensures, and `ApplyOpGet` characterizes it |
| Attributes.ApplyOpGet | src/core/test/render.spec.ts:33-38 | one write sets or removes its own attribute and leaves every other attribute as it was |
| VDom.ChildrenKeepPositions | src/core/test/render.spec.ts:209-228 | an array of render() output keeps its positions: a null entry becomes an empty text node, a vnode stays as it is |
| VDom.Children | src/core/test/render.spec.ts:180-228 | render()'s output normalized to the host vnode's children; carries no ensures, and `ChildrenKeepPositions` and `Component.BuildHostVNode` characterize it: null gives one empty text node, a vnode one child, an array keeps its positions |
| VDom.H | src/core/test/render.spec.ts:193-204 | `h('div', 0, 'text')`, an element holding one text child; carries no ensures, and `RenderTests.RenderSingle` and `RenderTests.RenderArrayWithNulls` state the stored child's tag and its one text child |
| Component.HyphenatedName | src/core/test/render.spec.ts:367-372 | a theme name, a hyphen and a mode or color make one class name |
| Component.ThemeClassesAreNames | src/core/test/render.spec.ts:323-373 | the theme classes are class names with the theme first, one more for each of mode and color and one for both |
| Component.ThemeClasses | src/core/test/render.spec.ts:323-373 | the classes `host.theme` derives with `mode` and `color`; carries no ensures, and `ThemeClassesAreNames`, `ThemeClassesDistinct` and `RenderTests.ThemeNames` characterize it |
| Component.ThemeClassesDistinct | src/core/test/render.spec.ts:323-373 | the theme classes repeat a name exactly when mode and color are the same nonempty word |
| Component.ThemeOf | src/core/test/render.spec.ts:230-237 | the theme classes of a component, none without `host.theme`; carries no ensures, and `ThemeOfEmpty` characterizes it |
| Component.ThemeOfEmpty | src/core/test/render.spec.ts:230-237 | there are no theme classes exactly when the component has no `host.theme`, and with one the theme name comes first |
| Component.HostDataOpsNoClass | src/core/test/render.spec.ts:272-289 | hostData()'s `class` entry never becomes a plain attribute write |
| Component.HostDataOpsLast | src/core/test/render.spec.ts:267-294 | hostData()'s last write to an attribute is its entry's value coerced, and there is none without an entry |
| Component.HostDataOps | src/core/test/render.spec.ts:267-294 | hostData()'s plain attribute writes in entry order; carries no ensures, and `HostDataOpsLast` (last write per attribute) and `HostDataOpsNoClass` (never `class`) characterize it |
| Component.HostValueOp | src/core/test/render.spec.ts:267-294 | how one hostData() entry other than `class` is written; carries no ensures, and `HostValueOpRemoves` and `Attributes.HostDataOp` characterize it |
| Component.HostValueOpRemoves | src/core/test/render.spec.ts:267-294 | a hostData() entry removes its attribute exactly when it is null or undefined, and a nested object is written as `"[object Object]"` |
| Component.HostOps | src/core/test/render.spec.ts:267-294 | the host vnode's writes, reflected properties after hostData(); carries no ensures, and `Runtime.RenderedAttribute` states which write wins per attribute |
| Component.LastReflected | src/core/test/render.spec.ts:22-30 | a property found for an attribute is reflected and targets that attribute |
| Component.ReflectOpsLast | src/core/test/render.spec.ts:18-178 | the reflected properties' last write to an attribute is the value of the last property reflected to it |
| Component.ReflectOps | src/core/test/render.spec.ts:18-178 | the reflected properties' writes in declaration order; carries no ensures, and `ReflectOpsLast` states the last write per attribute |
| Component.LastReflectedIs | src/core/test/render.spec.ts:22-30 | the property declared last for an attribute decides it |
| Component.BuildHostVNode | src/core/test/render.spec.ts:180-237 | a host vnode is built exactly when there is a render(), a hostData(), a theme or a reflected property; its class list is distinct names; its children are render()'s output normalized, or none without render() |
| Component.ShouldBuild | src/core/test/render.spec.ts:230-237 | the build gate; carries no ensures, and `BuildHostVNode` states it opens exactly when there is a render(), a hostData(), a theme or a reflected property |
| Component.HostClassString | src/core/test/render.spec.ts:272-285 | a class string in hostData() gives the names it contains, once each, in order |
| Component.HostClassMap | src/core/test/render.spec.ts:248-317 | hostData()'s class entry as a class map; carries no ensures, and `HostClassString` (a string) and `ClassObjectLastValue` (an object, last value per key) characterize it |
| Component.HostClassesThenTheme | src/core/test/render.spec.ts:403-410 | when hostData() maps no theme class to false, the class list is hostData()'s classes followed by the new theme classes |
| Component.ThemeClassesPresent | src/core/test/render.spec.ts:388-410 | every theme class is on the host, even one hostData() maps to false |
| Component.PutAllLookup | src/core/test/render.spec.ts:385-390 | assigning entries in turn leaves each key with its last entry's value, or as it was |
| Component.ClassObjectLastValue | src/core/test/render.spec.ts:385-390 | of a key a class object repeats, the last value counts |
| Component.HostClassesMember | src/core/test/render.spec.ts:385-410 | a name is on the host exactly when it is a theme class or a key of hostData()'s class object mapped to true holds it |
| Component.HostClasses | src/core/test/render.spec.ts:375-410 | the host vnode's class list; carries no ensures, and `HostClassesMember` (a name is present exactly when it is a theme class or a true key holds it), `HostClassesThenTheme` and `ThemeClassesPresent` characterize it |
| Component.FalseClassAbsent | src/core/test/render.spec.ts:385-410 | a class that is not a theme class and that hostData() maps only to false is not on the host (`c` at line 389, even beside a theme class held false) |
| Runtime.HostElement.constructor | src/core/test/render.spec.ts:14 | a fresh element has the given identity and tag and no attribute |
| Runtime.HostElement.ClassList | src/core/test/render.spec.ts:264 | the element's class list is an ordered set: whitespace-free names, each once, exactly the names of the class attribute |
| Runtime.HostElement.GetAttribute | src/core/test/render.spec.ts:33-38 | `elm.getAttribute`, the attribute's value or null when absent; carries no ensures, and `SetAttribute`, `RemoveAttribute` and `Attributes.ApplyOpGet` characterize what it reads after a write |
| Runtime.HostElement.SetAttribute | src/core/test/render.spec.ts:33 | setAttribute sets one attribute and nothing else |
| Runtime.HostElement.RemoveAttribute | src/core/test/render.spec.ts:38 | removeAttribute removes one attribute and nothing else |
| Runtime.HostElement.AddClass | src/core/test/render.spec.ts:264 | classList.add writes back the deduplicated class list with the name added unless present |
| Runtime.Platform.constructor | src/core/test/render.spec.ts:13 | a fresh platform has empty maps and no style attachment |
| Runtime.Platform.AttachStyles | src/core/test/render.spec.ts:239-244 | attaching styles records the element and changes neither map |
| Runtime.ApplyAttrOps | src/core/test/render.spec.ts:33-38 | the element's attributes become the writes applied in order to the old ones |
| Runtime.ClassesAddedTokens | src/core/test/render.spec.ts:403-410 | after adding a prefix of the names, the class list is the old list with that prefix added |
| Runtime.ClassesAddedStep | src/core/test/render.spec.ts:403-410 | after one more name, the class attribute is the previous list with that name added |
| Runtime.ClassesAddedOver | src/core/test/render.spec.ts:403-410 | a later class attribute write replaces an earlier one |
| Runtime.AddClasses | src/core/test/render.spec.ts:403-410 | adding names in turn leaves the old class list with the names added, joined by single spaces; no name leaves the element alone |
| Runtime.ApplyHostVNode | src/core/test/render.spec.ts:283-293 | the element ends with the host vnode's writes applied, then its classes added |
| Runtime.ElementAfter | src/core/test/render.spec.ts:264-294 | the element's attributes after a host vnode is applied; carries no ensures, and `ApplyHostVNode`, `RenderedAttribute` and `FreshClassList` characterize it |
| Runtime.Render | src/core/test/render.spec.ts:180-244 | when the gate opens, the host vnode is applied to the element and stored for it, otherwise neither changes; styles are attached in every case; the instance map is unchanged |
| Runtime.DoRender | src/core/test/render.spec.ts:421-429 | the harness registers the instance for the element, then renders with the same outcome as Render |
| Runtime.RenderedAttribute | src/core/test/render.spec.ts:150-178 | after a render an attribute other than `class` is set by the last property reflected to it, else by hostData()'s entry, else as before |
| Runtime.HostAttribute | src/core/test/render.spec.ts:150-178 | an attribute's value after a render, by which write wins; carries no ensures, and `RenderedAttribute` states that the element ends with it |
| Runtime.HostDataAttribute | src/core/test/render.spec.ts:267-294 | an attribute that hostData() sets and no property reflects is its last entry's value, coerced |
| Runtime.ReflectedPropertyReadsBack | src/core/test/render.spec.ts:18-148 | after a render, reading a reflected attribute as its property's type gives the property's value |
| Runtime.FreshClassList | src/core/test/render.spec.ts:285-289 | on an element without a class attribute, the class attribute after a render is the resolved class list joined by single spaces, and reads back as that list, split or as a class list |
| RenderTests.BeforeEach | src/core/test/render.spec.ts:12-15 | each case starts from a fresh platform and a fresh `ion-tag` element |
| RenderTests.ReflectStandardBooleanFalse | src/core/test/render.spec.ts:18-39 | `checked = false` removes a present `checked` attribute |
| RenderTests.ReflectStandardBooleanTrue | src/core/test/render.spec.ts:41-60 | `checked = true` gives `checked=""` |
| RenderTests.ReflectNonStandardBoolean | src/core/test/render.spec.ts:62-123 | a boolean reflected to `my-attr-name` is `"true"` or `"false"` |
| RenderTests.ReflectNumberWithRender | src/core/test/render.spec.ts:125-148 | the number 88 is reflected as `"88"` |
| RenderTests.ReflectStringWithHostData | src/core/test/render.spec.ts:150-178 | a host vnode is stored; the string is reflected verbatim beside hostData()'s attribute |
| RenderTests.RenderNull | src/core/test/render.spec.ts:180-192 | render() returning null gives one empty text child |
| RenderTests.RenderSingle | src/core/test/render.spec.ts:194-207 | render() returning one vnode gives that `div` with its text child |
| RenderTests.RenderArrayWithNulls | src/core/test/render.spec.ts:209-228 | `[null, div, null]` gives empty text, the `div`, empty text |
| RenderTests.NothingToRender | src/core/test/render.spec.ts:230-237 | with nothing to render or put on the host, no vnode is stored and the element is untouched |
| RenderTests.StylesWithoutRender | src/core/test/render.spec.ts:239-244 | styles are attached once for the element without render() |
| RenderTests.TrueTokensCons | src/core/test/render.spec.ts:252-258 | an entry put in front contributes its names first |
| RenderTests.TokensOfClassObjectKeys | src/core/test/render.spec.ts:253-256 | the keys `'a'`, `' clAss   '` and `'My-class_ '` trim to `a`, `clAss`, `My-class_` |
| RenderTests.ClassObjectTrueTokens | src/core/test/render.spec.ts:252-258 | the case's object includes `a`, `clAss`, `My-class_` |
| RenderTests.DistinctClassObject | src/core/test/render.spec.ts:248-265 | without a theme, a lone class object with distinct keys and distinct included names gives those names |
| RenderTests.ClassObjectResolved | src/core/test/render.spec.ts:248-265 | the case's class list is `a`, `clAss`, `My-class_` |
| RenderTests.HostDataClasses | src/core/test/render.spec.ts:248-265 | after the render the element's classes are `a`, `clAss`, `My-class_` |
| RenderTests.UnthemedClasses | src/core/test/render.spec.ts:248-321 | without a theme the class list is hostData()'s alone |
| RenderTests.DistinctClassString | src/core/test/render.spec.ts:272-285 | a class string with distinct names gives those names |
| RenderTests.TokensOfAttributeClassString | src/core/test/render.spec.ts:272-285 | `'a b c  my-class'` splits to `a`, `b`, `c`, `my-class` |
| RenderTests.AttributeRecordClasses | src/core/test/render.spec.ts:272-285 | the case's class list is `a`, `b`, `c`, `my-class` |
| RenderTests.RenderedSide | src/core/test/render.spec.ts:271 | `side` keeps its whitespace verbatim |
| RenderTests.RenderedEmpty | src/core/test/render.spec.ts:273 | `empty` is present as `""` |
| RenderTests.RenderedType | src/core/test/render.spec.ts:274 | a null entry leaves `type` out |
| RenderTests.RenderedSomething | src/core/test/render.spec.ts:275 | an undefined entry leaves `something` out |
| RenderTests.RenderedNumber | src/core/test/render.spec.ts:276 | the number 12 is written `"12"` |
| RenderTests.RenderedAppear | src/core/test/render.spec.ts:277 | `appear: true` is written `"true"` |
| RenderTests.RenderedNoAppear | src/core/test/render.spec.ts:278 | `no-appear: false` is written `"false"`, not removed |
| RenderTests.AttributeRecordAttrs | src/core/test/render.spec.ts:267-294 | all plain attributes of the case together |
| RenderTests.AttributeCaseClasses | src/core/test/render.spec.ts:285-289 | the case's class attribute is `"a b c my-class"` and reads back as its class list |
| RenderTests.AttributeRecordOthers | src/core/test/render.spec.ts:267-294 | an attribute the record does not name keeps its prior value |
| RenderTests.AttributeRecordUnnamed | src/core/test/render.spec.ts:269-278 | a name other than the record's eight keys is held by no entry |
| RenderTests.AttributeRecordKey | src/core/test/render.spec.ts:284-291 | on a fresh element the case leaves no attribute but `side`, `class`, `empty`, `number`, `appear` and `no-appear` |
| RenderTests.HostDataAttributes | src/core/test/render.spec.ts:267-294 | after the render the element has the case's classes and exactly the attributes `side`, `class`, `empty`, `number`, `appear` and `no-appear`, each with its value; `type` and `something` are absent |
| RenderTests.ThemeOnlyClasses | src/core/test/render.spec.ts:323-373 | without hostData() the class list is the theme classes, when they are distinct names |
| RenderTests.ThemeNames | src/core/test/render.spec.ts:323-373 | theme `my-component` gives `my-component`; with mode `ios` also `my-component-ios`; with mode `md` and color `main` the four classes in order |
| RenderTests.Theme | src/core/test/render.spec.ts:323-335 | the element's classes are `my-component` |
| RenderTests.ThemeWithMode | src/core/test/render.spec.ts:337-352 | the element's classes are `my-component`, `my-component-ios`, and styles are attached |
| RenderTests.ThemeWithModeAndColor | src/core/test/render.spec.ts:354-373 | the element's classes are the four theme classes in order |
| RenderTests.ObjectRecordType | src/core/test/render.spec.ts:300 | a null `type` entry leaves `type` out |
| RenderTests.ObjectRecordOthers | src/core/test/render.spec.ts:316-320 | an attribute the record does not name keeps its prior value |
| RenderTests.ObjectRecordUnnamed | src/core/test/render.spec.ts:299-308 | a name other than `type`, `number`, `appear` and `class` is held by no entry |
| RenderTests.ObjectRecordKey | src/core/test/render.spec.ts:316-320 | on a fresh element the record leaves no attribute but `class`, `number` and `appear` |
| RenderTests.ObjectRecordNumber | src/core/test/render.spec.ts:301 | `number` is `"12"` |
| RenderTests.ObjectRecordAppear | src/core/test/render.spec.ts:302 | the string `'true'` is written verbatim |
| RenderTests.ObjectRecordClassMap | src/core/test/render.spec.ts:303-308 | the record's class map is its class object, when its keys are distinct |
| RenderTests.PlainObjectTrueTokens | src/core/test/render.spec.ts:303-308 | `{a: true, hola: true, b: false, c: false}` includes `a`, `hola` |
| RenderTests.ObjectRecordClasses | src/core/test/render.spec.ts:296-321 | without a theme, the record's class object with distinct keys and distinct included names gives those names |
| RenderTests.PlainObjectClasses | src/core/test/render.spec.ts:315 | the case's class list is `a`, `hola` |
| RenderTests.ClassesAndAttributesCase | src/core/test/render.spec.ts:315-317 | the case's class attribute is `"a hola"` and reads back as its class list |
| RenderTests.HostDataClassesAndAttributes | src/core/test/render.spec.ts:296-321 | after the render the element's classes are `a`, `hola`, with `class`, `number` and `appear` as expected and no other attribute, `type` included |
| RenderTests.ThemedObjectPut | src/core/test/render.spec.ts:388-406 | assigning `my-component` true over the object flips that entry in place |
| RenderTests.ModeColorClassesFresh | src/core/test/render.spec.ts:407-409 | none of the derived theme classes is held as false |
| RenderTests.ThemedObjectAfterTrueTokens | src/core/test/render.spec.ts:404-406 | after the flip, the object includes `a`, `hola`, `my-component` |
| RenderTests.PutAllFreshNames | src/core/test/render.spec.ts:403-410 | assigning all-new names true over an object with distinct included names appends them to its class list |
| RenderTests.ThemedObjectPutAll | src/core/test/render.spec.ts:388-410 | assigning the theme classes is flipping `my-component`, then assigning the derived ones |
| RenderTests.ThemedObjectAfterClasses | src/core/test/render.spec.ts:403-410 | the class list is the object's classes then the three derived theme classes |
| RenderTests.ThemedObjectClasses | src/core/test/render.spec.ts:375-410 | the case's class list is `a`, `hola`, `my-component`, `my-component-md`, `my-component-main`, `my-component-md-main` |
| RenderTests.HostDataAndThemeCase | src/core/test/render.spec.ts:403-413 | the case's class attribute is that list joined by single spaces and reads back as it |
| RenderTests.HostDataAndTheme | src/core/test/render.spec.ts:375-417 | after the render the element has the six classes in order, the class attribute joining them, `number` and `appear` as expected, and no attribute besides `class`, `number` and `appear` |

## Left out

- The runtime's `render` implementation, `h` and the test mocks are not part of this model. Only the behaviour the suite asserts is modelled. `mockPlatform`/`mockElement` become `Platform`/`HostElement`; `toMatchClasses`/`toMatchAttributes` become postconditions on the class list and the attribute map.
- `src/compiler/app/reserved-properties.ts` is a build-time list of names protected from minification. It is data without runtime behaviour in the render step.
- Virtual-DOM reconciliation and diffing: a render applies the host vnode's writes and classes to the element. Children are stored, not patched. Nothing removes an attribute or class set by an earlier render unless a write removes it.
- `attachStyles` internals, CSS scoping and shadow DOM: only the call per render is recorded.
- The full set of standardized HTML boolean attributes is not given. It is a parameter of `Platform`; the cases require `checked` in it and `my-attr-name` outside it.
- Attributes.IntToString: writes every integer in full decimal digits. JavaScript's `String(n)` switches to exponent form at magnitude 10^21, so `1e21` becomes `"1e+21"` there and 22 digits here. A `Num` is an unbounded integer, while a JavaScript number holds integers exactly only up to 2^53. The suite's numbers are 12 and 88.
- JavaScript numbers are integers here; fractions, NaN and infinities are not modelled. Only the declared types Boolean, Number and String are modelled.
- `h(tag, data, text)` is modelled only in the shape the suite uses: an element with one text child. Nested arrays and text merging are not modelled.
- render() and hostData() are given by the values they return, as the component's capabilities; calling them, and side effects in them, are not modelled.
- The `isUpdateRender` argument (`false` at line 427) is not modelled: every render is a first render.
- A theme with a color but no mode gives `T` and `T-color`; the suite never sets a color without a mode.
- Class names are separated by the DOM's ASCII whitespace: space, tab, line feed, form feed and carriage return. JavaScript's `trim()` also removes vertical tab, no-break space and the other Unicode spaces from a class-object key; those are not treated as separators here.
- A nested object under a key other than `class` is written as `"[object Object]"`; the suite has no such case.
- RenderTests.HostDataAndTheme: states the class attribute of line 413 as `Join` of the six class names it pins, in order, rather than as the string literal.
- RenderTests.ReflectNonStandardBoolean: one method with the boolean as a parameter covers the cases at lines 62-81 and 83-102, and the identical case at 104-123.
- ClassNames.PutKeys: a new key always goes last. JavaScript lists integer-like keys such as `"2"` first, in ascending order, ahead of the other string keys, so `{b: true, '2': true}` iterates `"2"` then `"b"`, while the model gives `["b", "2"]`. No class-object key in the suite is integer-like.
- Runtime.HostElement.SetAttribute: keeps the attribute name's case. On an HTML element the DOM lowercases the name first. Every attribute name in the suite is already lowercase.
- Runtime.HostElement.RemoveAttribute: keeps the attribute name's case, as SetAttribute does. The DOM lowercases the name first on an HTML element.
- Runtime.HostElement.GetAttribute: reads the name case-sensitively, where the DOM lowercases it first on an HTML element.
