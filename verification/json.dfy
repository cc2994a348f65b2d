/** The JSON documents the scrapers write and the loaders read, as values.

    An object is the ordered list of its members, exactly as a Python `dict`
    produced by `json.loads` keeps its insertion order. Every lookup takes the
    FIRST member with the requested key, which is the dict's one member when
    keys are distinct (as they are in a decoded dict). Non-integral numbers
    are kept as opaque text: nothing in the model computes with them.
 */
module JsonValues {
  import opened Wrappers

  datatype Json =
    | Null
    | Bool(b: bool)
    | Int(i: int)
    | Float(repr: string)
    | Str(s: string)
    | Arr(elems: seq<Json>)
    | Obj(fields: seq<(string, Json)>)

  type Fields = seq<(string, Json)>

  /** The keys of an object, in member order. */
  function Keys(fs: Fields): (ks: seq<string>)
    ensures |ks| == |fs|
    ensures forall i :: 0 <= i < |fs| ==> ks[i] == fs[i].0
  {
    seq(|fs|, i requires 0 <= i < |fs| => fs[i].0)
  }

  /** Python `k in d`. */
  predicate HasKey(fs: Fields, k: string) {
    k in Keys(fs)
  }

  /** Python `d.get(k)`, with `None` standing for a missing key: the value of
      the first member whose key is `k`. */
  function Lookup(fs: Fields, k: string): (r: Option<Json>)
    ensures r.Some? <==> HasKey(fs, k)
  {
    if fs == [] then None
    else if fs[0].0 == k then Some(fs[0].1)
    else
      assert Keys(fs) == [fs[0].0] + Keys(fs[1..]);
      Lookup(fs[1..], k)
  }

  /** What a lookup finds is the first member under its key. */
  lemma {:induction false} LookupFirst(fs: Fields, k: string)
    requires HasKey(fs, k)
    ensures exists i :: 0 <= i < |fs| && fs[i] == (k, Lookup(fs, k).value) && forall j :: 0 <= j < i ==> fs[j].0 != k
    decreases |fs|
  {
    if fs[0].0 == k {
      assert fs[0] == (k, fs[0].1);
    } else {
      KeysCons(fs);
      LookupFirst(fs[1..], k);
      var i :| 0 <= i < |fs[1..]| && fs[1..][i] == (k, Lookup(fs[1..], k).value) && forall j :: 0 <= j < i ==> fs[1..][j].0 != k;
      assert fs[i + 1] == fs[1..][i];
      forall j | 0 < j < i + 1 ensures fs[j].0 != k {
        assert fs[j] == fs[1..][j - 1];
      }
    }
  }

  /** Python `v[k]` with a string key: a dict without the key raises
      `KeyError`, a value that is not a dict raises `TypeError`. */
  function Index(v: Json, k: string): (r: Result<Json>)
    ensures r.Ok? <==> v.Obj? && HasKey(v.fields, k)
    ensures r.Ok? ==> Lookup(v.fields, k) == Some(r.value)
    ensures v.Obj? && !HasKey(v.fields, k) ==> r == Err(KeyError(k))
  {
    match v
    case Obj(fs) => if HasKey(fs, k) then Ok(Lookup(fs, k).value) else Err(KeyError(k))
    case _ => Err(TypeError("value is not a dict"))
  }

  /** Python `d.get(k, default)`. */
  function GetOr(fs: Fields, k: string, default: Json): Json {
    Lookup(fs, k).GetOr(default)
  }

  /** Python `d.get(k)`: a missing key reads as `None`, i.e. JSON null. */
  function Field(fs: Fields, k: string): Json {
    GetOr(fs, k, Null)
  }

  lemma {:induction false} LookupAppend(a: Fields, b: Fields, k: string)
    ensures Lookup(a + b, k) == if HasKey(a, k) then Lookup(a, k) else Lookup(b, k)
    decreases |a|
  {
    if a == [] {
      assert a + b == b;
    } else {
      assert (a + b)[0] == a[0] && (a + b)[1..] == a[1..] + b;
      assert Keys(a) == [a[0].0] + Keys(a[1..]);
      LookupAppend(a[1..], b, k);
    }
  }

  /** No key occurs twice, as in any dict Python builds. */
  predicate DistinctKeys(fs: Fields) {
    forall i, j :: 0 <= i < j < |fs| ==> fs[i].0 != fs[j].0
  }

  /** With distinct keys, every member is what its own key looks up. */
  lemma LookupAt(fs: Fields, i: nat)
    requires DistinctKeys(fs) && i < |fs|
    ensures Lookup(fs, fs[i].0) == Some(fs[i].1)
  {
    var k := fs[i].0;
    assert HasKey(fs, k) by { assert Keys(fs)[i] == k; }
    LookupFirst(fs, k);
    var j :| 0 <= j < |fs| && fs[j] == (k, Lookup(fs, k).value) && forall j' :: 0 <= j' < j ==> fs[j'].0 != k;
    assert j == i;
  }

  /** `for x in value` over a JSON value: a list yields its elements, an
      object its keys, a string its characters; any other value raises
      `TypeError` (it is not iterable). */
  function Iterate(v: Json): (r: Result<seq<Json>>)
    ensures v.Arr? ==> r == Ok(v.elems)
    ensures r.Ok? <==> (v.Arr? || v.Obj? || v.Str?)
    ensures v.Obj? && r.Ok? ==> |r.value| == |v.fields|
    ensures v.Str? && r.Ok? ==> |r.value| == |v.s|
  {
    match v
    case Arr(xs) => Ok(xs)
    case Obj(fs) => Ok(seq(|fs|, i requires 0 <= i < |fs| => Str(fs[i].0)))
    case Str(s) => Ok(seq(|s|, i requires 0 <= i < |s| => Str([s[i]])))
    case _ => Err(TypeError("value is not iterable"))
  }

  /** `for x in d.get(k, [])` over an object: a missing key iterates nothing. */
  function IterateField(fs: Fields, k: string): (r: Result<seq<Json>>)
    ensures !HasKey(fs, k) ==> r == Ok([])
    ensures Lookup(fs, k) == Some(Null) ==> r.Err?
  {
    Iterate(GetOr(fs, k, Arr([])))
  }

  /** `s` occurs in `t` as a contiguous piece (Python `s in t` on strings). */
  predicate IsInfix(s: string, t: string)
    decreases |t|
  {
    (|s| <= |t| && t[..|s|] == s) || (|t| > 0 && IsInfix(s, t[1..]))
  }

  /** Python `key in v` with a string `key`: a dict tests its keys, a list
      its elements, a string its substrings; any other value raises
      `TypeError`. */
  function Contains(v: Json, key: string): (r: Result<bool>)
    ensures v.Obj? ==> r == Ok(HasKey(v.fields, key))
    ensures r.Ok? <==> (v.Obj? || v.Arr? || v.Str?)
  {
    match v
    case Obj(fs) => Ok(HasKey(fs, key))
    case Arr(xs) => Ok(Str(key) in xs)
    case Str(s) => Ok(IsInfix(key, s))
    case _ => Err(TypeError("argument is not iterable"))
  }

  // ---------------------------------------------------------------------
  // Dict updates: `{**a, **b}`, `d[k] = v`, `d.pop(k, None)`

  /** Every member of `a`, its value replaced by `b`'s when `b` has the key. */
  function Override(a: Fields, b: Fields): (r: Fields)
    ensures Keys(r) == Keys(a)
    ensures forall k {:trigger Lookup(r, k)} ::
              Lookup(r, k) == if HasKey(b, k) && HasKey(a, k) then Lookup(b, k) else Lookup(a, k)
  {
    if a == [] then []
    else
      var rest := Override(a[1..], b);
      var r := [(a[0].0, GetOr(b, a[0].0, a[0].1))] + rest;
      OverrideCons(a, b, rest, r);
      r
  }

  lemma OverrideCons(a: Fields, b: Fields, rest: Fields, r: Fields)
    requires a != [] && r == [(a[0].0, GetOr(b, a[0].0, a[0].1))] + rest
    requires Keys(rest) == Keys(a[1..])
    requires forall k {:trigger Lookup(rest, k)} ::
               Lookup(rest, k) == if HasKey(b, k) && HasKey(a[1..], k) then Lookup(b, k) else Lookup(a[1..], k)
    ensures Keys(r) == Keys(a)
    ensures forall k {:trigger Lookup(r, k)} ::
              Lookup(r, k) == if HasKey(b, k) && HasKey(a, k) then Lookup(b, k) else Lookup(a, k)
  {
    assert r[0].0 == a[0].0 && r[1..] == rest;
    KeysCons(a);
    KeysCons(r);
    forall k ensures Lookup(r, k) == if HasKey(b, k) && HasKey(a, k) then Lookup(b, k) else Lookup(a, k) {
      if k != a[0].0 {
        assert Lookup(r, k) == Lookup(rest, k);
      }
    }
  }

  lemma KeysCons(fs: Fields)
    requires fs != []
    ensures Keys(fs) == [fs[0].0] + Keys(fs[1..])
    ensures forall k {:trigger HasKey(fs, k)} :: HasKey(fs, k) <==> fs[0].0 == k || HasKey(fs[1..], k)
  {
    assert Keys(fs) == [fs[0].0] + Keys(fs[1..]);
  }

  /** The members of `b` whose key `a` lacks, in `b`'s order. */
  function Fresh(b: Fields, a: Fields): (r: Fields)
    ensures forall k {:trigger Lookup(r, k)} ::
              Lookup(r, k) == if HasKey(a, k) then None else Lookup(b, k)
    ensures forall i :: 0 <= i < |r| ==> !HasKey(a, r[i].0)
  {
    if b == [] then []
    else
      var rest := Fresh(b[1..], a);
      assert Keys(b) == [b[0].0] + Keys(b[1..]);
      if HasKey(a, b[0].0) then rest
      else
        var r := [b[0]] + rest;
        assert Keys(r) == [b[0].0] + Keys(rest);
        assert r[1..] == rest;
        r
  }

  /** Python `{**a, **b}`: `a`'s members in order with `b`'s values winning on
      shared keys, then `b`'s new members in order. */
  function Merge(a: Fields, b: Fields): (r: Fields)
    ensures forall k {:trigger Lookup(r, k)} ::
              Lookup(r, k) == if HasKey(b, k) then Lookup(b, k) else Lookup(a, k)
    ensures forall k {:trigger HasKey(r, k)} :: HasKey(r, k) <==> HasKey(a, k) || HasKey(b, k)
    ensures Keys(r) == Keys(a) + Keys(Fresh(b, a))
  {
    var o := Override(a, b);
    var f := Fresh(b, a);
    forall k ensures Lookup(o + f, k) == if HasKey(b, k) then Lookup(b, k) else Lookup(a, k) {
      LookupAppend(o, f, k);
      assert HasKey(o, k) <==> HasKey(a, k);
    }
    KeysAppend(o, f);
    o + f
  }

  /** Merging with nothing (Python `additional_data=None`, read as `{}`)
      leaves the entry exactly as it was. */
  lemma MergeNothing(a: Fields)
    ensures Merge(a, []) == a
  {
    OverrideNothing(a);
  }

  lemma {:induction false} OverrideNothing(a: Fields)
    ensures Override(a, []) == a
  {
    if a != [] {
      OverrideNothing(a[1..]);
    }
  }

  /** Python `d[k] = v`: an existing key keeps its place and takes the new
      value; a new key is appended. */
  function Put(fs: Fields, k: string, v: Json): (r: Fields)
    ensures Lookup(r, k) == Some(v)
    ensures forall k' {:trigger Lookup(r, k')} :: k' != k ==> Lookup(r, k') == Lookup(fs, k')
  {
    if HasKey(fs, k) then
      Override(fs, [(k, v)])
    else
      AppendNew(fs, k, v);
      fs + [(k, v)]
  }

  /** Setting a key keeps every member's place: an existing key stays where
      it was, a new one goes last. */
  lemma PutKeys(fs: Fields, k: string, v: Json)
    ensures HasKey(fs, k) ==> Keys(Put(fs, k, v)) == Keys(fs)
    ensures !HasKey(fs, k) ==> Keys(Put(fs, k, v)) == Keys(fs) + [k]
  {
    if !HasKey(fs, k) {
      KeysAppend(fs, [(k, v)]);
      assert Keys([(k, v)]) == [k];
    }
  }

  /** Appending a member under a new key adds that key last and changes no
      other lookup. */
  lemma AppendNew(fs: Fields, k: string, v: Json)
    requires !HasKey(fs, k)
    ensures Lookup(fs + [(k, v)], k) == Some(v)
    ensures forall k' {:trigger Lookup(fs + [(k, v)], k')} :: k' != k ==> Lookup(fs + [(k, v)], k') == Lookup(fs, k')
  {
    LookupAppend(fs, [(k, v)], k);
    forall k' | k' != k ensures Lookup(fs + [(k, v)], k') == Lookup(fs, k') {
      LookupAppend(fs, [(k, v)], k');
    }
  }

  lemma KeysAppend(a: Fields, b: Fields)
    ensures Keys(a + b) == Keys(a) + Keys(b)
  {
  }

  /** Python `d.pop(k, None)`: drops the key, keeps every other member in order. */
  function Remove(fs: Fields, k: string): (r: Fields)
    ensures !HasKey(r, k)
    ensures forall k' {:trigger Lookup(r, k')} :: k' != k ==> Lookup(r, k') == Lookup(fs, k')
    ensures |r| <= |fs|
  {
    if fs == [] then []
    else
      var rest := Remove(fs[1..], k);
      assert Keys(fs) == [fs[0].0] + Keys(fs[1..]);
      if fs[0].0 == k then rest
      else
        var r := [fs[0]] + rest;
        assert Keys(r) == [fs[0].0] + Keys(rest);
        assert r[1..] == rest;
        r
  }
}
