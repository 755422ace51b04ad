/**
 * The class-name normalizer: a class string, or a map from class name to
 * "include", becomes a list of class names without whitespace, without
 * duplicates, in first-seen order.  The class attribute is that list joined
 * by single spaces.
 */
module ClassNames {
  import opened Wrappers

  /** The characters that separate class names: the DOM's ASCII whitespace (tab, line feed, form feed, carriage return, space). */
  predicate IsSpace(c: char) {
    c == ' ' || c == '\t' || c == '\n' || c == '\U{000C}' || c == '\r'
  }

  /** A class name: non-empty and free of whitespace. */
  predicate IsToken(t: string) {
    |t| > 0 && forall i :: 0 <= i < |t| ==> !IsSpace(t[i])
  }

  predicate AllTokens(ts: seq<string>) {
    forall k :: 0 <= k < |ts| ==> IsToken(ts[k])
  }

  predicate NoDups(ts: seq<string>) {
    forall i, j :: 0 <= i < j < |ts| ==> ts[i] != ts[j]
  }

  // ---------------------------------------------------------------------
  // Splitting and joining
  // ---------------------------------------------------------------------

  /** The longest prefix of `s` without whitespace. */
  function Word(s: string): (w: string)
    ensures |w| <= |s| && w == s[..|w|]
    ensures forall i :: 0 <= i < |w| ==> !IsSpace(w[i])
    ensures |w| < |s| ==> IsSpace(s[|w|])
  {
    if s == [] || IsSpace(s[0]) then [] else [s[0]] + Word(s[1..])
  }

  /** Splits a class string at whitespace; leading, trailing and repeated whitespace give no name. */
  function Tokens(s: string): (ts: seq<string>)
    ensures AllTokens(ts)
    decreases |s|
  {
    if s == [] then []
    else if IsSpace(s[0]) then Tokens(s[1..])
    else
      var w := Word(s);
      [w] + Tokens(s[|w|..])
  }

  /** The serialization of a class list: names separated by single spaces. */
  function Join(ts: seq<string>): string {
    if ts == [] then ""
    else if |ts| == 1 then ts[0]
    else ts[0] + " " + Join(ts[1..])
  }

  lemma {:induction false} WordOfPrefix(t: string, rest: string)
    requires forall i :: 0 <= i < |t| ==> !IsSpace(t[i])
    requires rest == [] || IsSpace(rest[0])
    ensures Word(t + rest) == t
  {
    if t != [] {
      assert (t + rest)[1..] == t[1..] + rest;
      WordOfPrefix(t[1..], rest);
    } else {
      assert t + rest == rest;
    }
  }

  /** A name followed by nothing or by whitespace splits off as the first name. */
  lemma TokensOfPrefix(t: string, rest: string)
    requires IsToken(t)
    requires rest == [] || IsSpace(rest[0])
    ensures Tokens(t + rest) == [t] + Tokens(rest)
  {
    WordOfPrefix(t, rest);
    assert (t + rest)[|t|..] == rest;
  }

  /** Joining names and splitting again gives back the same names. */
  lemma {:induction false} TokensOfJoin(ts: seq<string>)
    requires AllTokens(ts)
    ensures Tokens(Join(ts)) == ts
  {
    if |ts| == 1 {
      TokensOfPrefix(ts[0], "");
      assert ts[0] + "" == ts[0];
    } else if |ts| > 1 {
      var rest := " " + Join(ts[1..]);
      assert Join(ts) == ts[0] + rest;
      TokensOfPrefix(ts[0], rest);
      assert rest[1..] == Join(ts[1..]);
      TokensOfJoin(ts[1..]);
    }
  }

  predicate AllSpace(s: string) {
    forall i :: 0 <= i < |s| ==> IsSpace(s[i])
  }

  /** Leading whitespace gives no name. */
  lemma {:induction false} TokensSkipSpace(sp: string, rest: string)
    requires AllSpace(sp)
    ensures Tokens(sp + rest) == Tokens(rest)
  {
    if sp != [] {
      assert (sp + rest)[1..] == sp[1..] + rest;
      TokensSkipSpace(sp[1..], rest);
    } else {
      assert sp + rest == rest;
    }
  }

  /** A name with whitespace around it splits to that name alone. */
  lemma TokensPadded(pre: string, t: string, post: string)
    requires AllSpace(pre) && IsToken(t) && AllSpace(post)
    ensures Tokens(pre + t + post) == [t]
  {
    assert pre + t + post == pre + (t + post);
    TokensSkipSpace(pre, t + post);
    TokensOfPrefix(t, post);
    TokensSkipSpace(post, []);
    assert post + [] == post;
  }

  /** A single name splits to itself. */
  lemma TokensOfName(t: string)
    requires IsToken(t)
    ensures Tokens(t) == [t]
  {
    TokensOfPrefix(t, "");
    assert t + "" == t;
  }

  /** A name, then whitespace, then more: the name comes first. */
  lemma TokensCons(t: string, sp: string, rest: string)
    requires IsToken(t) && AllSpace(sp) && sp != []
    ensures Tokens(t + sp + rest) == [t] + Tokens(rest)
  {
    assert t + sp + rest == t + (sp + rest);
    TokensOfPrefix(t, sp + rest);
    TokensSkipSpace(sp, rest);
  }

  /** Names separated by the given runs of whitespace, one run between each two names. */
  function Spaced(ts: seq<string>, seps: seq<string>): string
    requires |ts| > 0 && |seps| == |ts| - 1
  {
    if |ts| == 1 then ts[0] else ts[0] + seps[0] + Spaced(ts[1..], seps[1..])
  }

  /**
   * Splitting ignores how much whitespace there is: names with any
   * whitespace before, between and after them split back to those names.
   */
  lemma {:induction false} TokensOfSpaced(pre: string, ts: seq<string>, seps: seq<string>, post: string)
    requires |ts| > 0 && |seps| == |ts| - 1 && AllTokens(ts)
    requires AllSpace(pre) && AllSpace(post)
    requires forall i :: 0 <= i < |seps| ==> AllSpace(seps[i]) && seps[i] != []
    ensures Tokens(pre + Spaced(ts, seps) + post) == ts
    decreases |ts|
  {
    if |ts| == 1 {
      TokensPadded(pre, ts[0], post);
    } else {
      var rest := Spaced(ts[1..], seps[1..]);
      assert pre + Spaced(ts, seps) + post == pre + (ts[0] + seps[0] + (rest + post));
      TokensSkipSpace(pre, ts[0] + seps[0] + (rest + post));
      TokensCons(ts[0], seps[0], rest + post);
      assert forall i :: 0 <= i < |seps[1..]| ==> seps[1..][i] == seps[i + 1];
      assert forall i :: 0 <= i < |ts[1..]| ==> ts[1..][i] == ts[i + 1];
      TokensOfSpaced([], ts[1..], seps[1..], post);
      assert [] + rest + post == rest + post;
      assert ts == [ts[0]] + ts[1..];
    }
  }

  // ---------------------------------------------------------------------
  // First-seen deduplication (classList.add semantics)
  // ---------------------------------------------------------------------

  /** classList.add of one name: appended unless already present. */
  function Add(ts: seq<string>, t: string): seq<string> {
    if t in ts then ts else ts + [t]
  }

  /** Adds the names of `us` one after another to `ts`. */
  function AddAll(ts: seq<string>, us: seq<string>): (r: seq<string>)
    ensures forall x :: x in r <==> x in ts || x in us
    ensures NoDups(ts) ==> NoDups(r)
    ensures AllTokens(ts) && AllTokens(us) ==> AllTokens(r)
    ensures |ts| <= |r| && r[..|ts|] == ts
    decreases |us|
  {
    if us == [] then ts
    else
      var r := AddAll(ts, us[..|us| - 1]);
      assert us[|us| - 1] in us;
      assert forall x :: x in us[..|us| - 1] ==> x in us;
      assert forall x :: x in us ==> x in us[..|us| - 1] || x == us[|us| - 1];
      Add(r, us[|us| - 1])
  }

  /** The names of `us` without repetitions, each where it first occurs. */
  function Dedup(us: seq<string>): (r: seq<string>)
    ensures forall x :: x in r <==> x in us
    ensures NoDups(r)
    ensures AllTokens(us) ==> AllTokens(r)
  {
    AddAll([], us)
  }

  /** Adding one more name of `cs` is one more Add. */
  lemma AddAllPrefix(ts: seq<string>, cs: seq<string>, j: nat)
    requires j < |cs|
    ensures AddAll(ts, cs[..j + 1]) == Add(AddAll(ts, cs[..j]), cs[j])
  {
    assert cs[..j + 1][..j] == cs[..j];
  }

  /** Adding two lists in turn is adding their concatenation. */
  lemma {:induction false} AddAllAppend(ts: seq<string>, a: seq<string>, b: seq<string>)
    ensures AddAll(ts, a + b) == AddAll(AddAll(ts, a), b)
    decreases |b|
  {
    if b == [] {
      assert a + b == a;
    } else {
      assert (a + b)[..|a + b| - 1] == a + b[..|b| - 1];
      assert (a + b)[|a + b| - 1] == b[|b| - 1];
      AddAllAppend(ts, a, b[..|b| - 1]);
    }
  }

  /** Names are processed left to right: the first one is added first. */
  lemma AddAllFirst(ts: seq<string>, x: string, us: seq<string>)
    ensures AddAll(ts, [x] + us) == AddAll(Add(ts, x), us)
  {
    AddAllAppend(ts, [x], us);
    assert [x][..0] == [];
  }

  /** Adding names that are all new and distinct appends them in order. */
  lemma {:induction false} AddAllFresh(ts: seq<string>, us: seq<string>)
    requires NoDups(ts + us)
    ensures AddAll(ts, us) == ts + us
    decreases |us|
  {
    if us == [] {
      assert ts + us == ts;
    } else {
      var init := us[..|us| - 1];
      assert ts + us == (ts + init) + [us[|us| - 1]];
      assert NoDups(ts + init) by {
        forall i, j | 0 <= i < j < |ts + init|
          ensures (ts + init)[i] != (ts + init)[j]
        {
          assert (ts + init)[i] == (ts + us)[i] && (ts + init)[j] == (ts + us)[j];
        }
      }
      AddAllFresh(ts, init);
      var last := us[|us| - 1];
      assert last !in ts + init by {
        forall i | 0 <= i < |ts + init| ensures (ts + init)[i] != last {
          assert (ts + init)[i] == (ts + us)[i];
          assert last == (ts + us)[|ts + us| - 1];
        }
      }
    }
  }

  /** A list without repetitions is left as it is. */
  lemma DedupOfDistinct(us: seq<string>)
    requires NoDups(us)
    ensures Dedup(us) == us
  {
    assert [] + us == us;
    AddAllFresh([], us);
  }

  lemma DedupIdempotent(us: seq<string>)
    ensures Dedup(Dedup(us)) == Dedup(us)
  {
    DedupOfDistinct(Dedup(us));
  }

  /** The names of `a` come first, in their order, then the new names of `b`. */
  lemma DedupAppend(a: seq<string>, b: seq<string>)
    ensures Dedup(a + b) == AddAll(Dedup(a), b)
  {
    AddAllAppend([], a, b);
  }

  // ---------------------------------------------------------------------
  // Class maps: ordered objects from class name to "include"
  // ---------------------------------------------------------------------

  /** An object literal from class name to boolean, in key order. */
  type ClassMap = seq<(string, bool)>

  function Keys(m: ClassMap): (ks: seq<string>)
    ensures |ks| == |m|
  {
    if m == [] then [] else [m[0].0] + Keys(m[1..])
  }

  /** The value stored under `k`. */
  function Lookup(m: ClassMap, k: string): (r: Option<bool>)
    ensures r.None? <==> k !in Keys(m)
    ensures r.Some? ==> (k, r.value) in m
  {
    if m == [] then None
    else if m[0].0 == k then Some(m[0].1)
    else Lookup(m[1..], k)
  }

  /**
   * Property assignment `m[k] = v`: an existing key keeps its position and
   * gets the new value, a new key goes last.
   */
  function Put(m: ClassMap, k: string, v: bool): (r: ClassMap)
    ensures Lookup(r, k) == Some(v)
    ensures forall j :: j != k ==> Lookup(r, j) == Lookup(m, j)
  {
    if m == [] then [(k, v)]
    else if m[0].0 == k then [(k, v)] + m[1..]
    else [m[0]] + Put(m[1..], k, v)
  }

  /** Assignment keeps the key order, appending a key the map did not hold. */
  lemma {:induction false} PutKeys(m: ClassMap, k: string, v: bool)
    ensures Keys(Put(m, k, v)) == if k in Keys(m) then Keys(m) else Keys(m) + [k]
  {
    if m == [] {
    } else if m[0].0 == k {
      var r := [(k, v)] + m[1..];
      assert r[1..] == m[1..];
      assert Keys(r) == [k] + Keys(m[1..]) == Keys(m);
    } else {
      var t := Put(m[1..], k, v);
      PutKeys(m[1..], k, v);
      assert Put(m, k, v) == [m[0]] + t;
      assert ([m[0]] + t)[1..] == t;
      assert Keys(Put(m, k, v)) == [m[0].0] + Keys(t);
      assert Keys(m) == [m[0].0] + Keys(m[1..]);
      assert k in Keys(m) <==> k in Keys(m[1..]);
      if k !in Keys(m[1..]) {
        assert [m[0].0] + (Keys(m[1..]) + [k]) == Keys(m) + [k];
      }
    }
  }

  /** Assigns the entries in order, as an object literal is built. */
  function PutAll(m: ClassMap, es: seq<(string, bool)>): ClassMap
    decreases |es|
  {
    if es == [] then m else PutAll(Put(m, es[0].0, es[0].1), es[1..])
  }

  /** The keys of `es` are distinct and none of them is a key of `m`. */
  predicate FreshKeys(m: ClassMap, es: seq<(string, bool)>) {
    (forall i :: 0 <= i < |es| ==> es[i].0 !in Keys(m))
    && forall i, j :: 0 <= i < j < |es| ==> es[i].0 != es[j].0
  }

  /** Entries whose keys are distinct and new are appended as they are. */
  lemma {:induction false} PutAllFresh(m: ClassMap, es: seq<(string, bool)>)
    requires FreshKeys(m, es)
    ensures PutAll(m, es) == m + es
    decreases |es|
  {
    if es == [] {
      assert m + es == m;
    } else {
      FreshKeysTail(m, es);
      PutAllFresh(m + [es[0]], es[1..]);
    }
  }

  /** Putting the first fresh entry appends it, and the others stay fresh. */
  lemma FreshKeysTail(m: ClassMap, es: seq<(string, bool)>)
    requires es != [] && FreshKeys(m, es)
    ensures PutAll(m, es) == PutAll(m + [es[0]], es[1..])
    ensures m + es == (m + [es[0]]) + es[1..]
    ensures FreshKeys(m + [es[0]], es[1..])
  {
    assert es[0].0 !in Keys(m);
    PutNew(m, es[0].0, es[0].1);
    assert PutAll(m, es) == PutAll(Put(m, es[0].0, es[0].1), es[1..]);
    SnocThenRest(m, es);
    FreshKeysRest(m, es);
  }

  lemma SnocThenRest<T>(m: seq<T>, es: seq<T>)
    requires es != []
    ensures m + es == (m + [es[0]]) + es[1..]
  {
    assert es == [es[0]] + es[1..];
  }

  lemma FreshKeysRest(m: ClassMap, es: seq<(string, bool)>)
    requires es != [] && FreshKeys(m, es)
    ensures FreshKeys(m + [es[0]], es[1..])
  {
    var k := es[0].0;
    KeysSnoc(m, es[0]);
    forall i | 0 <= i < |es[1..]| ensures es[1..][i].0 !in Keys(m) + [k] {
      assert es[1..][i] == es[i + 1];
      assert es[i + 1].0 != k;
    }
    forall i, j | 0 <= i < j < |es[1..]| ensures es[1..][i].0 != es[1..][j].0 {
      assert es[1..][i] == es[i + 1] && es[1..][j] == es[j + 1];
    }
  }

  lemma {:induction false} KeysSnoc(m: ClassMap, e: (string, bool))
    ensures Keys(m + [e]) == Keys(m) + [e.0]
  {
    if m != [] {
      assert (m + [e])[1..] == m[1..] + [e];
      KeysSnoc(m[1..], e);
    }
  }

  /** The names contributed by the keys mapped to true, in key order. */
  function TrueTokens(m: ClassMap): (ts: seq<string>)
    ensures AllTokens(ts)
  {
    if m == [] then []
    else (if m[0].1 then Tokens(m[0].0) else []) + TrueTokens(m[1..])
  }

  /** The keys mapped to true, in key order. */
  function TrueKeys(m: ClassMap): seq<string> {
    if m == [] then [] else (if m[0].1 then [m[0].0] else []) + TrueKeys(m[1..])
  }

  /** When every key is a single class name, the included names are the keys mapped to true. */
  lemma {:induction false} TrueTokensOfNames(m: ClassMap)
    requires forall i :: 0 <= i < |m| ==> IsToken(m[i].0)
    ensures TrueTokens(m) == TrueKeys(m)
  {
    if m != [] {
      TokensOfName(m[0].0);
      assert forall i :: 0 <= i < |m[1..]| ==> m[1..][i] == m[i + 1];
      TrueTokensOfNames(m[1..]);
    }
  }

  lemma {:induction false} TrueTokensMember(m: ClassMap, t: string)
    ensures t in TrueTokens(m) <==> exists i :: 0 <= i < |m| && m[i].1 && t in Tokens(m[i].0)
  {
    if m != [] {
      TrueTokensMember(m[1..], t);
      if t in TrueTokens(m[1..]) {
        var i :| 0 <= i < |m[1..]| && m[1..][i].1 && t in Tokens(m[1..][i].0);
        assert m[i + 1] == m[1..][i];
      }
      if exists i :: 0 <= i < |m| && m[i].1 && t in Tokens(m[i].0) {
        var i :| 0 <= i < |m| && m[i].1 && t in Tokens(m[i].0);
        if i > 0 {
          assert m[1..][i - 1] == m[i];
        }
      }
    }
  }

  // ---------------------------------------------------------------------
  // Normalization
  // ---------------------------------------------------------------------

  /** The class list a class string denotes. */
  function NormalizeString(s: string): (r: seq<string>)
    ensures AllTokens(r) && NoDups(r)
    ensures forall t :: t in r <==> t in Tokens(s)
  {
    Dedup(Tokens(s))
  }

  /** The class list a class map denotes: the names of the keys mapped to true, trimmed, once each. */
  function NormalizeMap(m: ClassMap): (r: seq<string>)
    ensures AllTokens(r) && NoDups(r)
    ensures forall t :: t in r <==> t in TrueTokens(m)
  {
    Dedup(TrueTokens(m))
  }

  /** A name is in the class list exactly when some key mapped to true holds it. */
  lemma NormalizeMapMember(m: ClassMap, t: string)
    ensures t in NormalizeMap(m) <==> exists i :: 0 <= i < |m| && m[i].1 && t in Tokens(m[i].0)
  {
    TrueTokensMember(m, t);
  }

  /** A map whose included names are already distinct normalizes to those names. */
  lemma NormalizeMapDistinct(m: ClassMap)
    requires NoDups(TrueTokens(m))
    ensures NormalizeMap(m) == TrueTokens(m)
  {
    DedupOfDistinct(TrueTokens(m));
  }

  /** Serializing a normalized class list and reading it back changes nothing. */
  lemma NormalizeIdempotent(ts: seq<string>)
    requires AllTokens(ts) && NoDups(ts)
    ensures NormalizeString(Join(ts)) == ts
  {
    TokensOfJoin(ts);
    DedupOfDistinct(ts);
  }

  lemma NormalizeMapRoundTrip(m: ClassMap)
    ensures NormalizeString(Join(NormalizeMap(m))) == NormalizeMap(m)
  {
    NormalizeIdempotent(NormalizeMap(m));
  }

  // ---------------------------------------------------------------------
  // Assigning true to more keys
  // ---------------------------------------------------------------------

  function TrueEntries(ks: seq<string>): (es: seq<(string, bool)>)
    ensures |es| == |ks|
    ensures forall i :: 0 <= i < |ks| ==> es[i] == (ks[i], true)
  {
    if ks == [] then [] else [(ks[0], true)] + TrueEntries(ks[1..])
  }

  lemma {:induction false} PutTrueNormalize(m: ClassMap, k: string)
    requires IsToken(k)
    requires Lookup(m, k) != Some(false)
    ensures NormalizeMap(Put(m, k, true)) == Add(NormalizeMap(m), k)
  {
    TokensOfPrefix(k, "");
    assert k + "" == k;
    if k in Keys(m) {
      assert Lookup(m, k).Some? && Lookup(m, k).value;
      PutExistingTrue(m, k);
      assert (k, true) in m;
      var i :| 0 <= i < |m| && m[i] == (k, true);
      assert k in Tokens(m[i].0);
      TrueTokensMember(m, k);
    } else {
      PutNew(m, k, true);
      TrueTokensSnoc(m, (k, true));
      DedupAppend(TrueTokens(m), [k]);
      assert [k][..0] == [];
    }
  }

  lemma {:induction false} PutExistingTrue(m: ClassMap, k: string)
    requires Lookup(m, k) == Some(true)
    ensures Put(m, k, true) == m
  {
    if m != [] && m[0].0 != k {
      PutExistingTrue(m[1..], k);
    }
  }

  lemma {:induction false} PutNew(m: ClassMap, k: string, v: bool)
    requires k !in Keys(m)
    ensures Put(m, k, v) == m + [(k, v)]
  {
    if m != [] {
      assert Keys(m)[0] == m[0].0;
      assert k !in Keys(m[1..]) by {
        assert Keys(m) == [m[0].0] + Keys(m[1..]);
      }
      PutNew(m[1..], k, v);
      calc {
        Put(m, k, v);
        [m[0]] + Put(m[1..], k, v);
        [m[0]] + (m[1..] + [(k, v)]);
        { assert m == [m[0]] + m[1..]; }
        m + [(k, v)];
      }
    }
  }

  lemma {:induction false} TrueTokensSnoc(m: ClassMap, e: (string, bool))
    ensures TrueTokens(m + [e]) == TrueTokens(m) + (if e.1 then Tokens(e.0) else [])
  {
    if m == [] {
      assert [] + [e] == [e];
      assert [e][1..] == [];
    } else {
      var h := if m[0].1 then Tokens(m[0].0) else [];
      var t := if e.1 then Tokens(e.0) else [];
      assert (m + [e])[0] == m[0];
      assert (m + [e])[1..] == m[1..] + [e];
      TrueTokensSnoc(m[1..], e);
      calc {
        TrueTokens(m + [e]);
        h + TrueTokens(m[1..] + [e]);
        h + (TrueTokens(m[1..]) + t);
        (h + TrueTokens(m[1..])) + t;
      }
    }
  }

  /**
   * Assigning true to further class names, none of which the map holds as
   * false, appends the new names after the map's own, in order.
   */
  lemma {:induction false} PutAllTrueNormalize(m: ClassMap, ks: seq<string>)
    requires AllTokens(ks)
    requires forall k :: k in ks ==> Lookup(m, k) != Some(false)
    ensures NormalizeMap(PutAll(m, TrueEntries(ks))) == AddAll(NormalizeMap(m), ks)
    decreases |ks|
  {
    if ks != [] {
      var m' := Put(m, ks[0], true);
      var rest := ks[1..];
      PutAllTrueStep(m, ks);
      PutAllTrueCons(m, ks);
      PutTrueNormalize(m, ks[0]);
      PutAllTrueNormalize(m', rest);
      assert ks == [ks[0]] + rest;
      AddThenAddAll(NormalizeMap(m), ks[0], rest, NormalizeMap(m'), NormalizeMap(PutAll(m', TrueEntries(rest))));
    }
  }

  /** Adding one name and then the rest is adding them all. */
  lemma AddThenAddAll(ts: seq<string>, k: string, rest: seq<string>, once: seq<string>, all: seq<string>)
    requires once == Add(ts, k) && all == AddAll(once, rest)
    ensures all == AddAll(ts, [k] + rest)
  {
    AddAllFirst(ts, k, rest);
  }

  /** Assigning a list of names true is assigning the first, then the rest. */
  lemma PutAllTrueCons(m: ClassMap, ks: seq<string>)
    requires ks != []
    ensures PutAll(m, TrueEntries(ks)) == PutAll(Put(m, ks[0], true), TrueEntries(ks[1..]))
  {
    assert TrueEntries(ks)[1..] == TrueEntries(ks[1..]);
  }

  /** The rest of the names stay class names none of which the map, once the first is assigned, holds as false. */
  lemma PutAllTrueStep(m: ClassMap, ks: seq<string>)
    requires ks != [] && AllTokens(ks)
    requires forall k :: k in ks ==> Lookup(m, k) != Some(false)
    ensures IsToken(ks[0]) && AllTokens(ks[1..])
    ensures forall k :: k in ks[1..] ==> Lookup(Put(m, ks[0], true), k) != Some(false)
  {
    assert AllTokens(ks[1..]) by {
      forall j | 0 <= j < |ks[1..]| ensures IsToken(ks[1..][j]) {
        assert ks[1..][j] == ks[j + 1];
      }
    }
    forall k | k in ks[1..] ensures Lookup(Put(m, ks[0], true), k) != Some(false) {
      assert k in ks;
    }
  }

  /** A name assigned true, or already true, is still true once the first name is assigned. */
  lemma PutTrueLookupStep(m: ClassMap, ks: seq<string>, k: string)
    requires ks != [] && (k in ks || Lookup(m, k) == Some(true))
    ensures k in ks[1..] || Lookup(Put(m, ks[0], true), k) == Some(true)
  {
    if k != ks[0] && k !in ks[1..] {
      assert ks == [ks[0]] + ks[1..];
    }
  }

  /** After assigning true to a class name, that name maps to true whatever follows. */
  lemma {:induction false} PutAllTrueLookup(m: ClassMap, ks: seq<string>, k: string)
    requires k in ks || Lookup(m, k) == Some(true)
    ensures Lookup(PutAll(m, TrueEntries(ks)), k) == Some(true)
    decreases |ks|
  {
    if ks != [] {
      PutAllTrueCons(m, ks);
      PutTrueLookupStep(m, ks, k);
      PutAllTrueLookup(Put(m, ks[0], true), ks[1..], k);
    }
  }

  /** Assigning true to `k` includes the names of `k` and keeps every name included before. */
  lemma {:induction false} PutTrueMember(m: ClassMap, k: string, t: string)
    ensures t in TrueTokens(Put(m, k, true)) <==> t in Tokens(k) || t in TrueTokens(m)
  {
    if m == [] {
      assert TrueTokens([(k, true)]) == Tokens(k) + TrueTokens([]);
    } else if m[0].0 == k {
      var r := [(k, true)] + m[1..];
      assert r[1..] == m[1..];
      assert TrueTokens(r) == Tokens(k) + TrueTokens(m[1..]);
    } else {
      var r := [m[0]] + Put(m[1..], k, true);
      assert r[1..] == Put(m[1..], k, true);
      PutTrueMember(m[1..], k, t);
    }
  }

  /**
   * After assigning true to a list of names, a name is included exactly when
   * it is one of the names assigned or was included before.
   */
  lemma {:induction false} PutAllTrueMember(m: ClassMap, ks: seq<string>, t: string)
    ensures t in TrueTokens(PutAll(m, TrueEntries(ks)))
      <==> (exists j :: 0 <= j < |ks| && t in Tokens(ks[j])) || t in TrueTokens(m)
    decreases |ks|
  {
    if ks != [] {
      PutAllTrueCons(m, ks);
      PutTrueMember(m, ks[0], t);
      PutAllTrueMember(Put(m, ks[0], true), ks[1..], t);
      if exists j :: 0 <= j < |ks[1..]| && t in Tokens(ks[1..][j]) {
        var j :| 0 <= j < |ks[1..]| && t in Tokens(ks[1..][j]);
        assert ks[j + 1] == ks[1..][j];
      }
      if exists j :: 0 <= j < |ks| && t in Tokens(ks[j]) {
        var j :| 0 <= j < |ks| && t in Tokens(ks[j]);
        if j > 0 {
          assert ks[1..][j - 1] == ks[j];
        }
      }
    }
  }

  /** Every class name assigned true is in the class list, whatever the map held before. */
  lemma PutAllTrueContains(m: ClassMap, ks: seq<string>, k: string)
    requires IsToken(k) && k in ks
    ensures k in NormalizeMap(PutAll(m, TrueEntries(ks)))
  {
    var r := PutAll(m, TrueEntries(ks));
    PutAllTrueLookup(m, ks, k);
    assert (k, true) in r;
    var i :| 0 <= i < |r| && r[i] == (k, true);
    TokensOfPrefix(k, "");
    assert k + "" == k;
    assert k in Tokens(r[i].0);
    TrueTokensMember(r, k);
  }
}
