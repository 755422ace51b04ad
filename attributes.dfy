/**
 * Attribute-value coercion: how a property value or a hostData() value is
 * written to a DOM attribute, and how a sequence of such writes changes an
 * element's attribute map.
 */
module Attributes {
  import opened Wrappers

  /** A JavaScript value as the render step sees it; `Null` stands for both null and undefined. */
  datatype Value = Bool(b: bool) | Num(n: int) | Str(s: string) | Null

  /** The declared type of a component property. */
  datatype PropType = BooleanType | NumberType | StringType

  /** What is done to one attribute: set it to a string, or remove it. */
  datatype AttrOp = SetTo(value: string) | Remove

  // ---------------------------------------------------------------------
  // Decimal strings
  // ---------------------------------------------------------------------

  predicate IsDigit(c: char) {
    '0' <= c <= '9'
  }

  predicate AllDigits(s: string) {
    forall i :: 0 <= i < |s| ==> IsDigit(s[i])
  }

  function DigitChar(d: nat): (c: char)
    requires d < 10
    ensures IsDigit(c) && c as int - '0' as int == d
  {
    (d + '0' as int) as char
  }

  /** The decimal digits of `n`, without leading zeros. */
  function NatToString(n: nat): (s: string)
    ensures |s| > 0 && AllDigits(s)
    ensures |s| > 1 ==> s[0] != '0'
    decreases n
  {
    if n < 10 then [DigitChar(n)] else NatToString(n / 10) + [DigitChar(n % 10)]
  }

  /** String(n) for an integral number: a minus sign for negatives, then the digits. */
  function IntToString(n: int): string {
    if n < 0 then "-" + NatToString(-n) else NatToString(n)
  }

  function ParseDigits(s: string): nat
    requires AllDigits(s)
  {
    if s == [] then 0 else ParseDigits(s[..|s| - 1]) * 10 + (s[|s| - 1] as int - '0' as int)
  }

  /** Reads a decimal integer back; anything else is not a number. */
  function ParseInt(s: string): Option<int> {
    if |s| >= 2 && s[0] == '-' && AllDigits(s[1..]) then (var d: int := ParseDigits(s[1..]); Some(-d))
    else if |s| >= 1 && AllDigits(s) then Some(ParseDigits(s))
    else None
  }

  lemma {:induction false} ParseNatToString(n: nat)
    ensures ParseDigits(NatToString(n)) == n
    decreases n
  {
    if n >= 10 {
      var s := NatToString(n);
      assert s[..|s| - 1] == NatToString(n / 10);
      ParseNatToString(n / 10);
    }
  }

  /** A stringified number reads back as the same number. */
  lemma ParseIntToString(n: int)
    ensures ParseInt(IntToString(n)) == Some(n)
  {
    if n < 0 {
      var s := IntToString(n);
      assert s[1..] == NatToString(-n);
      ParseNatToString(-n);
    } else {
      ParseNatToString(n);
    }
  }

  // ---------------------------------------------------------------------
  // Coercion
  // ---------------------------------------------------------------------

  /** JavaScript's default string conversion of a non-null value. */
  function Stringify(v: Value): string
    requires !v.Null?
  {
    match v
    case Bool(b) => if b then "true" else "false"
    case Num(n) => IntToString(n)
    case Str(s) => s
  }

  /**
   * A hostData() entry: null and undefined leave the attribute out, every
   * other value is stringified, booleans included, whatever the name.
   */
  function HostDataOp(v: Value): (op: AttrOp)
    ensures op.Remove? <==> v.Null?
    ensures v.Bool? ==> op == SetTo(if v.b then "true" else "false")
    ensures v.Num? ==> op == SetTo(IntToString(v.n)) && ParseInt(op.value) == Some(v.n)
    ensures v.Str? ==> op == SetTo(v.s)
  {
    match v
    case Null => Remove
    case Num(n) => ParseIntToString(n); SetTo(Stringify(v))
    case _ => SetTo(Stringify(v))
  }

  /**
   * A property reflected to attribute `attr`: a boolean on a standardized
   * boolean attribute (a member of `std`) is present as "" when true and
   * removed when false; every other non-null value is stringified; null and
   * undefined remove the attribute.
   */
  function ReflectOp(std: set<string>, attr: string, v: Value): (op: AttrOp)
    ensures op.Remove? <==> v.Null? || (v.Bool? && attr in std && !v.b)
    ensures v.Bool? && attr in std && v.b ==> op == SetTo("")
    ensures v.Bool? && attr !in std ==> op == SetTo(if v.b then "true" else "false")
    ensures v.Num? ==> op == SetTo(IntToString(v.n)) && ParseInt(op.value) == Some(v.n)
    ensures v.Str? ==> op == SetTo(v.s)
  {
    match v
    case Null => Remove
    case Bool(b) => if attr in std then (if b then SetTo("") else Remove) else SetTo(Stringify(v))
    case Num(n) => ParseIntToString(n); SetTo(IntToString(n))
    case Str(s) => SetTo(s)
  }

  /**
   * The value an attribute denotes for a property of declared type `ty`:
   * how a reader of the host element recovers a reflected property.
   */
  function ReadAttr(std: set<string>, attr: string, ty: PropType, present: Option<string>): Value {
    match ty
    case BooleanType =>
      if attr in std then Bool(present.Some?)
      else if present.None? then Null
      else Bool(present.value != "false")
    case NumberType =>
      if present.None? then Null
      else if ParseInt(present.value).Some? then Num(ParseInt(present.value).value)
      else Null
    case StringType =>
      if present.None? then Null else Str(present.value)
  }

  /** The runtime type of `v` agrees with the declared type `ty`. */
  predicate HasType(v: Value, ty: PropType) {
    match ty
    case BooleanType => v.Bool?
    case NumberType => v.Num?
    case StringType => v.Str?
  }

  // ---------------------------------------------------------------------
  // Applying writes to an attribute map
  // ---------------------------------------------------------------------

  function Get(attrs: map<string, string>, name: string): Option<string> {
    if name in attrs then Some(attrs[name]) else None
  }

  function ApplyOp(attrs: map<string, string>, name: string, op: AttrOp): map<string, string> {
    match op
    case SetTo(s) => attrs[name := s]
    case Remove => attrs - {name}
  }

  /** One write changes its own attribute only: set to its string, or absent. */
  lemma ApplyOpGet(attrs: map<string, string>, name: string, op: AttrOp, k: string)
    ensures Get(ApplyOp(attrs, name, op), k) == if k == name then Written(Get(attrs, k), Some(op)) else Get(attrs, k)
  {
  }

  /** Applies the writes in order. */
  function ApplyOps(attrs: map<string, string>, ops: seq<(string, AttrOp)>): map<string, string>
    decreases |ops|
  {
    if ops == [] then attrs
    else ApplyOp(ApplyOps(attrs, ops[..|ops| - 1]), ops[|ops| - 1].0, ops[|ops| - 1].1)
  }

  /** The value of the last entry keyed `name`, if any: the last write to an attribute, the last entry of a record. */
  function LastEntry<V>(entries: seq<(string, V)>, name: string): (r: Option<V>)
    ensures r.None? <==> forall i :: 0 <= i < |entries| ==> entries[i].0 != name
    decreases |entries|
  {
    if entries == [] then None
    else if entries[|entries| - 1].0 == name then Some(entries[|entries| - 1].1)
    else
      var r := LastEntry(entries[..|entries| - 1], name);
      assert forall i :: 0 <= i < |entries| - 1 ==> entries[..|entries| - 1][i] == entries[i];
      r
  }

  /** When a key occurs several times, its last occurrence is the one that counts. */
  lemma {:induction false} LastEntryAt<V>(entries: seq<(string, V)>, i: nat, name: string)
    requires i < |entries| && entries[i].0 == name
    requires forall j :: i < j < |entries| ==> entries[j].0 != name
    ensures LastEntry(entries, name) == Some(entries[i].1)
    decreases |entries|
  {
    if i < |entries| - 1 {
      LastEntryAt(entries[..|entries| - 1], i, name);
    }
  }

  /** The attribute's value after a write, or before it when nothing was written. */
  function Written(prior: Option<string>, op: Option<AttrOp>): Option<string> {
    match op
    case None => prior
    case Some(SetTo(s)) => Some(s)
    case Some(Remove) => None
  }

  /** Last writer wins: each attribute ends as its last write made it, or as it was. */
  lemma {:induction false} ApplyOpsLastWriter(attrs: map<string, string>, ops: seq<(string, AttrOp)>, name: string)
    ensures Get(ApplyOps(attrs, ops), name) == Written(Get(attrs, name), LastEntry(ops, name))
    decreases |ops|
  {
    if ops != [] {
      ApplyOpsLastWriter(attrs, ops[..|ops| - 1], name);
    }
  }

  /** The last write in `a + b` is the last in `b`, or else the last in `a`. */
  lemma {:induction false} LastEntryAppend<V>(a: seq<(string, V)>, b: seq<(string, V)>, name: string)
    ensures LastEntry(a + b, name) == if LastEntry(b, name).Some? then LastEntry(b, name) else LastEntry(a, name)
    decreases |b|
  {
    if b == [] {
      assert a + b == a;
    } else {
      assert (a + b)[..|a + b| - 1] == a + b[..|b| - 1];
      assert (a + b)[|a + b| - 1] == b[|b| - 1];
      LastEntryAppend(a, b[..|b| - 1], name);
    }
  }

  /** An entry put in front counts only when no later entry has its key. */
  lemma LastEntryCons<V>(e: (string, V), s: seq<(string, V)>, name: string)
    ensures LastEntry([e] + s, name) ==
      if LastEntry(s, name).Some? then LastEntry(s, name) else if e.0 == name then Some(e.1) else None
  {
    LastEntryAppend([e], s, name);
    assert [e][..0] == [];
  }

  /** Reading a reflected attribute back, as the property's declared type, gives the property's value. */
  lemma ReflectRoundTrip(std: set<string>, attr: string, ty: PropType, v: Value, attrs: map<string, string>)
    requires HasType(v, ty)
    ensures ReadAttr(std, attr, ty, Get(ApplyOp(attrs, attr, ReflectOp(std, attr, v)), attr)) == v
  {
  }
}
