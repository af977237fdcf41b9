/**
 * Values shared by every stage of the widget pipeline: the widget record,
 * JavaScript-like scalar values, insertion-ordered objects and the string
 * routines (trim, prefix/suffix/substring tests, decimal rendering) that the
 * parsers, the merger, the generators and the preview renderer all use.
 */
module Common {

  datatype Option<T> = None | Some(value: T)

  /** A scalar stored under a key of a widget's `layout` or `style` object. */
  datatype Val = Num(n: int) | Str(s: string) | Bool(b: bool) | Null

  /** JavaScript truthiness of a scalar: 0, "", false and null are falsy. */
  predicate Truthy(v: Val) {
    match v
    case Num(n) => n != 0
    case Str(s) => s != ""
    case Bool(b) => b
    case Null => false
  }

  /** Truthiness of a possibly absent property (`undefined` is falsy). */
  predicate TruthyOpt(v: Option<Val>) {
    v.Some? && Truthy(v.value)
  }

  // ---------------------------------------------------------------------
  // Insertion-ordered objects
  // ---------------------------------------------------------------------

  /**
   * A JavaScript object whose property order matters: `keys` lists the
   * properties in insertion order, `m` holds their values.
   */
  datatype Dict = Dict(keys: seq<string>, m: map<string, Val>)

  const Empty: Dict := Dict([], map[])

  /** Every key is listed exactly once and every listed key has a value. */
  ghost predicate ValidDict(d: Dict) {
    && (forall i, j :: 0 <= i < j < |d.keys| ==> d.keys[i] != d.keys[j])
    && (forall k :: k in d.m <==> k in d.keys)
  }

  function Get(d: Dict, k: string): Option<Val> {
    if k in d.m then Some(d.m[k]) else None
  }

  /** `obj[k] = v`: an existing property keeps its position, a new one goes last. */
  function Put(d: Dict, k: string, v: Val): (r: Dict)
    ensures Get(r, k) == Some(v)
    ensures forall k' :: k' != k ==> Get(r, k') == Get(d, k')
    ensures r.keys == if k in d.m then d.keys else d.keys + [k]
    ensures ValidDict(d) ==> ValidDict(r)
  {
    Dict(if k in d.m then d.keys else d.keys + [k], d.m[k := v])
  }

  /** The object spread `{...a, ...b}`: `b`'s properties assigned onto a copy of `a`, in `b`'s order. */
  function Spread(a: Dict, b: Dict): Dict
    decreases |b.keys|
  {
    if b.keys == [] then a
    else
      var k := b.keys[0];
      Spread(Put(a, k, if k in b.m then b.m[k] else Null), Dict(b.keys[1..], b.m))
  }

  lemma {:induction false} SpreadGetGeneral(a: Dict, bkeys: seq<string>, bm: map<string, Val>, k: string)
    requires forall key :: key in bkeys ==> key in bm
    ensures Get(Spread(a, Dict(bkeys, bm)), k) == if k in bkeys then Some(bm[k]) else Get(a, k)
    decreases |bkeys|
  {
    if bkeys != [] {
      SpreadGetGeneral(Put(a, bkeys[0], bm[bkeys[0]]), bkeys[1..], bm, k);
      assert k in bkeys <==> k == bkeys[0] || k in bkeys[1..];
    }
  }

  /** Reading a spread object: `b` wins on a shared key, otherwise `a`'s value stays. */
  lemma SpreadGet(a: Dict, b: Dict, k: string)
    requires ValidDict(b)
    ensures Get(Spread(a, b), k) == if k in b.m then Get(b, k) else Get(a, k)
  {
    SpreadGetGeneral(a, b.keys, b.m, k);
  }

  /** Spreading keeps an object well formed. */
  lemma {:induction false} SpreadValid(a: Dict, b: Dict)
    requires ValidDict(a)
    ensures ValidDict(Spread(a, b))
    decreases |b.keys|
  {
    if b.keys != [] {
      var k := b.keys[0];
      SpreadValid(Put(a, k, if k in b.m then b.m[k] else Null), Dict(b.keys[1..], b.m));
    }
  }

  /** Spreading an empty object changes nothing. */
  lemma SpreadEmpty(a: Dict)
    ensures Spread(a, Empty) == a
  {
  }

  /**
   * Spreading the rest of an object's keys onto the object holding its first
   * keys (`pm`) rebuilds the object, order included.
   */
  lemma {:induction false} SpreadOntoPrefix(pre: seq<string>, pm: map<string, Val>, rest: seq<string>, m: map<string, Val>)
    requires ValidDict(Dict(pre + rest, m))
    requires forall k :: k in pm <==> k in pre
    requires forall k :: k in pm ==> k in m && pm[k] == m[k]
    ensures Spread(Dict(pre, pm), Dict(rest, m)) == Dict(pre + rest, m)
    decreases |rest|
  {
    if rest == [] {
      assert pre + rest == pre;
      assert pm == m;
      assert Spread(Dict(pre, pm), Dict(rest, m)) == Dict(pre, pm);
    } else {
      var k := rest[0];
      FirstOfRestFresh(pre, rest, m);
      var pm' := pm[k := m[k]];
      SpreadStep(Dict(pre, pm), rest, m);
      assert Put(Dict(pre, pm), k, m[k]) == Dict(pre + [k], pm');
      ShiftFirst(pre, rest);
      SpreadOntoPrefix(pre + [k], pm', rest[1..], m);
    }
  }

  lemma ShiftFirst<T>(pre: seq<T>, rest: seq<T>)
    requires rest != []
    ensures pre + rest == (pre + [rest[0]]) + rest[1..]
  {
    assert rest == [rest[0]] + rest[1..];
  }

  lemma SpreadStep(a: Dict, rest: seq<string>, m: map<string, Val>)
    requires rest != [] && rest[0] in m
    ensures Spread(a, Dict(rest, m)) == Spread(Put(a, rest[0], m[rest[0]]), Dict(rest[1..], m))
  {
  }

  lemma FirstOfRestFresh(pre: seq<string>, rest: seq<string>, m: map<string, Val>)
    requires ValidDict(Dict(pre + rest, m)) && rest != []
    ensures rest[0] !in pre && rest[0] in m
  {
    var keys := pre + rest;
    assert rest[0] !in pre by {
      forall i | 0 <= i < |pre|
        ensures pre[i] != rest[0]
      {
        assert keys[i] == pre[i] && keys[|pre|] == rest[0];
      }
    }
  }

  /** `{...{}, ...a}` is `a`: spreading onto an empty object copies it, order included. */
  lemma SpreadOntoEmpty(a: Dict)
    requires ValidDict(a)
    ensures Spread(Empty, a) == a
  {
    assert [] + a.keys == a.keys;
    SpreadOntoPrefix([], map[], a.keys, a.m);
  }

  // ---------------------------------------------------------------------
  // Widget records
  // ---------------------------------------------------------------------

  /** An event handler entry `{ name, source }`; an absent source is "". */
  datatype Event = Event(name: string, source: string)

  /**
   * A widget record as the extractors, the normalizer and the merger pass it
   * around. `kind` is the record's `type`. Fields that the source reads with
   * `x || default` are stored with that default when absent; `source` and
   * `parent` are "" when the record has none.
   */
  datatype Widget = Widget(
    id: string,
    kind: string,
    text: string,
    src: string,
    layout: Dict,
    style: Dict,
    tailwind: string,
    events: seq<Event>,
    assets: seq<string>,
    children: seq<string>,
    source: string,
    parent: string)

  /** The widgets' ids, in order. */
  function Ids(ws: seq<Widget>): (r: seq<string>)
    ensures |r| == |ws| && forall i :: 0 <= i < |ws| ==> r[i] == ws[i].id
  {
    if ws == [] then [] else [ws[0].id] + Ids(ws[1..])
  }

  /** No two widgets share an id. */
  predicate DistinctIds(ws: seq<Widget>) {
    forall i, j :: 0 <= i < j < |ws| ==> ws[i].id != ws[j].id
  }

  /**
   * The `meta` object of an IR document: its `sources` list and
   * `mappingApplied` flag, and every other property in `other`.
   */
  datatype Meta = Meta(sources: Option<seq<string>>, mappingApplied: Option<bool>, other: Dict)

  /** An IR document; `widgets` and `meta` are `None` when the property is missing. */
  datatype IR = IR(version: string, screenId: string, widgets: Option<seq<Widget>>, assets: Dict, meta: Option<Meta>)

  // ---------------------------------------------------------------------
  // Strings
  // ---------------------------------------------------------------------

  /** The characters JavaScript's `String.prototype.trim` removes (white space and line terminators). */
  predicate IsSpace(c: char) {
    c == ' ' || c == '\t' || c == '\n' || c == '\r' || c == '\U{000B}' || c == '\U{000C}'
    || c == '\U{00A0}' || c == '\U{FEFF}' || c == '\U{1680}' || ('\U{2000}' <= c <= '\U{200A}')
    || c == '\U{2028}' || c == '\U{2029}' || c == '\U{202F}' || c == '\U{205F}' || c == '\U{3000}'
  }

  function TrimStart(s: string): string {
    if s != [] && IsSpace(s[0]) then TrimStart(s[1..]) else s
  }

  function TrimEnd(s: string): string {
    if s != [] && IsSpace(s[|s| - 1]) then TrimEnd(s[..|s| - 1]) else s
  }

  /** `s.trim()`. */
  function Trim(s: string): string {
    TrimEnd(TrimStart(s))
  }

  lemma {:induction false} TrimStartSpec(s: string)
    ensures var r := TrimStart(s);
      && |r| <= |s| && r == s[|s| - |r|..]
      && (r == [] || !IsSpace(r[0]))
      && forall i :: 0 <= i < |s| - |r| ==> IsSpace(s[i])
  {
    if s != [] && IsSpace(s[0]) {
      var t := s[1..];
      TrimStartSpec(t);
      var r := TrimStart(t);
      assert t[|t| - |r|..] == s[|s| - |r|..];
      forall i | 0 < i < |s| - |r|
        ensures IsSpace(s[i])
      {
        assert s[i] == t[i - 1];
      }
    }
  }

  lemma {:induction false} TrimEndSpec(s: string)
    ensures var r := TrimEnd(s);
      && |r| <= |s| && r == s[..|r|]
      && (r == [] || !IsSpace(r[|r| - 1]))
      && forall i :: |r| <= i < |s| ==> IsSpace(s[i])
  {
    if s != [] && IsSpace(s[|s| - 1]) {
      var t := s[..|s| - 1];
      TrimEndSpec(t);
      var r := TrimEnd(t);
      assert t[..|r|] == s[..|r|];
      forall i | |r| <= i < |s| - 1
        ensures IsSpace(s[i])
      {
        assert s[i] == t[i];
      }
    }
  }

  /**
   * What `trim` returns is `s` without its leading and trailing white space:
   * a slice of `s` that neither starts nor ends with a space character.
   */
  lemma TrimSpec(s: string) returns (a: nat)
    ensures var r := Trim(s);
      && (r == [] || (!IsSpace(r[0]) && !IsSpace(r[|r| - 1])))
      && a + |r| <= |s| && r == s[a..a + |r|]
      && (forall i :: 0 <= i < a ==> IsSpace(s[i]))
      && (forall i :: a + |r| <= i < |s| ==> IsSpace(s[i]))
  {
    var t := TrimStart(s);
    TrimStartSpec(s);
    TrimEndSpec(t);
    var r := Trim(s);
    a := |s| - |t|;
    assert r == t[..|r|];
    assert r == s[a..a + |r|];
    if r != [] {
      if |r| == |t| {
        assert r[0] == t[0];
      } else {
        assert r[0] == t[0];
      }
    }
  }

  /** Trimming twice is trimming once. */
  lemma TrimIdempotent(s: string)
    ensures Trim(Trim(s)) == Trim(s)
  {
    var t := Trim(s);
    var _ := TrimSpec(s);
    if t != [] {
      assert TrimStart(t) == t;
      assert TrimEnd(t) == t;
    }
  }

  /** Trimming keeps a prefix that neither starts nor ends with white space. */
  lemma TrimKeepsPrefix(s: string, q: string)
    requires |q| <= |s| && s[..|q|] == q
    requires q != [] && !IsSpace(q[0]) && !IsSpace(q[|q| - 1])
    ensures |q| <= |Trim(s)| && Trim(s)[..|q|] == q
  {
    var a := TrimSpec(s);
    var r := Trim(s);
    assert r[..|q|] == s[..|q|];
  }

  predicate StartsWith(s: string, p: string) {
    |p| <= |s| && s[..|p|] == p
  }

  predicate EndsWith(s: string, p: string) {
    |p| <= |s| && s[|s| - |p|..] == p
  }

  lemma StartsWithConcat(a: string, b: string)
    ensures StartsWith(a + b, a)
  {
    assert (a + b)[..|a|] == a;
  }

  lemma EndsWithConcat(a: string, b: string)
    ensures EndsWith(a + b, b)
  {
    assert (a + b)[|a + b| - |b|..] == b;
  }

  /** `s.includes(p)`. */
  predicate Contains(s: string, p: string)
    decreases |s|
  {
    StartsWith(s, p) || (s != [] && Contains(s[1..], p))
  }

  lemma {:induction false} ContainsAt(s: string, p: string, i: nat)
    requires i + |p| <= |s| && s[i..i + |p|] == p
    ensures Contains(s, p)
    decreases i
  {
    if i > 0 {
      assert s[1..][i - 1..i - 1 + |p|] == p;
      ContainsAt(s[1..], p, i - 1);
    }
  }

  lemma {:induction false} ContainsWitness(s: string, p: string) returns (i: nat)
    requires Contains(s, p)
    ensures i + |p| <= |s| && s[i..i + |p|] == p
    decreases |s|
  {
    if StartsWith(s, p) {
      i := 0;
    } else {
      var j := ContainsWitness(s[1..], p);
      i := j + 1;
      assert s[i..i + |p|] == s[1..][j..j + |p|];
    }
  }

  /** A substring of a prefix or suffix of `s` is a substring of `s`. */
  lemma ContainsConcat(a: string, b: string, p: string)
    requires Contains(a, p) || Contains(b, p)
    ensures Contains(a + b, p)
  {
    if Contains(a, p) {
      var i := ContainsWitness(a, p);
      assert (a + b)[i..i + |p|] == a[i..i + |p|];
      ContainsAt(a + b, p, i);
    } else {
      var i := ContainsWitness(b, p);
      assert (a + b)[|a| + i..|a| + i + |p|] == b[i..i + |p|];
      ContainsAt(a + b, p, |a| + i);
    }
  }

  /** The text after the last `/` (all of `p` when it has none). */
  function AfterLastSlash(p: string): (r: string)
    ensures |r| <= |p|
    ensures forall i :: 0 <= i < |r| ==> r[i] != '/'
  {
    if p == [] then ""
    else if p[|p| - 1] == '/' then ""
    else AfterLastSlash(p[..|p| - 1]) + [p[|p| - 1]]
  }

  /** The result is the tail of `p` that follows its last slash. */
  lemma {:induction false} AfterLastSlashSpec(p: string)
    ensures var r := AfterLastSlash(p);
      && EndsWith(p, r)
      && (|r| < |p| ==> p[|p| - |r| - 1] == '/')
  {
    if p != [] && p[|p| - 1] != '/' {
      var init := p[..|p| - 1];
      AfterLastSlashSpec(init);
      var r := AfterLastSlash(p);
      assert p[|p| - |r|..] == init[|init| - (|r| - 1)..] + [p[|p| - 1]];
    }
  }

  /** ASCII lower-casing, the part of `toLowerCase` the ids and markers here use. */
  function LowerChar(c: char): char {
    if 'A' <= c <= 'Z' then (c as int + 32) as char else c
  }

  function Lower(s: string): (r: string)
    ensures |r| == |s| && forall i :: 0 <= i < |s| ==> r[i] == LowerChar(s[i])
  {
    seq(|s|, i requires 0 <= i < |s| => LowerChar(s[i]))
  }

  function DigitChar(d: nat): char
    requires d < 10
  {
    ('0' as int + d) as char
  }

  /** Decimal rendering of a natural number, as template literals print it. */
  function NatToString(n: nat): (r: string)
    ensures |r| > 0 && forall i :: 0 <= i < |r| ==> '0' <= r[i] <= '9'
    decreases n
  {
    if n < 10 then [DigitChar(n)] else NatToString(n / 10) + [DigitChar(n % 10)]
  }

  /** The value of a string of decimal digits. */
  function ParseDigits(s: string): nat
    requires forall i :: 0 <= i < |s| ==> '0' <= s[i] <= '9'
  {
    if s == [] then 0 else ParseDigits(s[..|s| - 1]) * 10 + (s[|s| - 1] as int - '0' as int)
  }

  /** Reading the decimal rendering back gives the number. */
  lemma {:induction false} ParseNatToString(n: nat)
    ensures ParseDigits(NatToString(n)) == n
    decreases n
  {
    if n >= 10 {
      ParseNatToString(n / 10);
      var r := NatToString(n);
      assert r[..|r| - 1] == NatToString(n / 10);
    }
  }

  /** Distinct numbers have distinct decimal renderings. */
  lemma NatToStringInjective(a: nat, b: nat)
    requires NatToString(a) == NatToString(b)
    ensures a == b
  {
    ParseNatToString(a);
    ParseNatToString(b);
  }

  function IntToString(n: int): string {
    if n < 0 then "-" + NatToString(-n) else NatToString(n)
  }

  /** `String(v)` for the scalars that template literals interpolate. */
  function ValToString(v: Val): string {
    match v
    case Num(n) => IntToString(n)
    case Str(s) => s
    case Bool(b) => if b then "true" else "false"
    case Null => "null"
  }

  /** `parts.join(sep)`. */
  function Join(parts: seq<string>, sep: string): string {
    if parts == [] then ""
    else if |parts| == 1 then parts[0]
    else parts[0] + sep + Join(parts[1..], sep)
  }

  /** Joining one more part appends the separator and the part. */
  lemma {:induction false} JoinSnoc(parts: seq<string>, c: string, sep: string)
    requires parts != []
    ensures Join(parts + [c], sep) == Join(parts, sep) + sep + c
    decreases |parts|
  {
    if |parts| == 1 {
      assert parts + [c] == [parts[0], c];
      assert [parts[0], c][1..] == [c];
    } else {
      assert (parts + [c])[1..] == parts[1..] + [c];
      JoinSnoc(parts[1..], c, sep);
    }
  }

  /** The index of the first element satisfying `p` (`Array.prototype.findIndex`), searching from `from`. */
  function FindFrom<T>(s: seq<T>, p: T -> bool, from: nat): (r: Option<nat>)
    requires from <= |s|
    ensures r.Some? ==> from <= r.value < |s| && p(s[r.value]) && forall j :: from <= j < r.value ==> !p(s[j])
    ensures r.None? ==> forall j :: from <= j < |s| ==> !p(s[j])
    decreases |s| - from
  {
    if from == |s| then None else if p(s[from]) then Some(from) else FindFrom(s, p, from + 1)
  }

  /** The first element satisfying `p` (`Array.prototype.find`), as an index. */
  function Find<T>(s: seq<T>, p: T -> bool): (r: Option<nat>)
    ensures r.Some? ==> r.value < |s| && p(s[r.value]) && forall j :: 0 <= j < r.value ==> !p(s[j])
    ensures r.None? ==> forall j :: 0 <= j < |s| ==> !p(s[j])
  {
    FindFrom(s, p, 0)
  }

  /** The concatenation of `f` applied to each element, in order. */
  function FlatMap<T, U>(s: seq<T>, f: T -> seq<U>): seq<U> {
    if s == [] then [] else f(s[0]) + FlatMap(s[1..], f)
  }

  lemma {:induction false} FlatMapAppend<T, U>(a: seq<T>, b: seq<T>, f: T -> seq<U>)
    ensures FlatMap(a + b, f) == FlatMap(a, f) + FlatMap(b, f)
    decreases |a|
  {
    if a == [] {
      assert a + b == b;
    } else {
      assert (a + b)[1..] == a[1..] + b;
      FlatMapAppend(a[1..], b, f);
    }
  }

  lemma FlatMapSnoc<T, U>(a: seq<T>, x: T, f: T -> seq<U>)
    ensures FlatMap(a + [x], f) == FlatMap(a, f) + f(x)
  {
    FlatMapAppend(a, [x], f);
    assert FlatMap([x], f) == f(x) + FlatMap([x][1..], f);
    assert [x][1..] == [];
  }

  /** Keeps the elements of `s` that satisfy `p`, in order (`Array.prototype.filter`). */
  function Filter<T(!new)>(s: seq<T>, p: T -> bool): (r: seq<T>)
    ensures |r| <= |s|
    ensures forall x :: x in r <==> x in s && p(x)
  {
    if s == [] then [] else (if p(s[0]) then [s[0]] else []) + Filter(s[1..], p)
  }

  /** Filtering with a predicate every element satisfies changes nothing. */
  lemma {:induction false} FilterAll<T(!new)>(s: seq<T>, p: T -> bool)
    requires forall i :: 0 <= i < |s| ==> p(s[i])
    ensures Filter(s, p) == s
    decreases |s|
  {
    if s != [] {
      FilterAll(s[1..], p);
      assert p(s[0]);
      assert [s[0]] + s[1..] == s;
    }
  }

  /** `t` is `s` with some elements left out and the rest kept in order. */
  predicate IsSubsequence<T(==)>(t: seq<T>, s: seq<T>)
    decreases |s|
  {
    if t == [] then true
    else if s == [] then false
    else if t[0] == s[0] then IsSubsequence(t[1..], s[1..])
    else IsSubsequence(t, s[1..])
  }

  lemma {:induction false} FilterIsSubsequence<T(!new)>(s: seq<T>, p: T -> bool)
    ensures IsSubsequence(Filter(s, p), s)
    decreases |s|
  {
    if s != [] {
      FilterIsSubsequence(s[1..], p);
      if p(s[0]) {
        assert Filter(s, p) == [s[0]] + Filter(s[1..], p);
        assert Filter(s, p)[1..] == Filter(s[1..], p);
      } else {
        assert Filter(s, p) == Filter(s[1..], p);
        SubsequenceSkip(Filter(s[1..], p), s[0], s[1..]);
        assert [s[0]] + s[1..] == s;
      }
    }
  }

  /** Putting an element in front of the sequence keeps a subsequence one. */
  lemma {:induction false} SubsequenceSkip<T>(t: seq<T>, x: T, s: seq<T>)
    requires IsSubsequence(t, s)
    ensures IsSubsequence(t, [x] + s)
    decreases |s|, 1
  {
    assert ([x] + s)[1..] == s;
    if t != [] && t[0] == x {
      SubsequenceDrop(t, s);
    }
  }

  /** Dropping the head of a subsequence keeps it a subsequence. */
  lemma {:induction false} SubsequenceDrop<T>(t: seq<T>, s: seq<T>)
    requires t != [] && IsSubsequence(t, s)
    ensures IsSubsequence(t[1..], s)
    decreases |s|, 0
  {
    if t[0] == s[0] {
      SubsequenceSkip(t[1..], s[0], s[1..]);
    } else {
      SubsequenceDrop(t, s[1..]);
      SubsequenceSkip(t[1..], s[0], s[1..]);
    }
    assert [s[0]] + s[1..] == s;
  }
}
