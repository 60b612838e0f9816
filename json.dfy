/**
 * JSON values as the Python code handles them after `json.loads`, and the
 * operations on an ordered `dict` that the webhook code performs: `d.get(k)`,
 * `d[k] = v`, `d.update(t)`, truthiness and `str(v)`.
 *
 * A Python dict keeps insertion order and one binding per key; it is modelled
 * as a sequence of (key, value) pairs. Lookup reads the LAST binding of a key
 * (what `json.loads` keeps when a text repeats a key), and assignment rebinds
 * every binding of the key in place or appends a new one, so that on a
 * duplicate-free sequence both agree with the dict.
 */
module JsonModel {
  import opened Wrappers
  import Text

  /** A JSON value. Only integral numbers are modelled. */
  datatype Json =
    | JNull
    | JBool(b: bool)
    | JNum(n: int)
    | JStr(s: string)
    | JArr(items: seq<Json>)
    | JObj(fields: seq<(string, Json)>)

  /** The bindings of a dict, in insertion order. */
  type Fields = seq<(string, Json)>

  /** Python's `bool(v)` for a decoded JSON value. */
  predicate Truthy(j: Json)
  {
    match j
    case JNull => false
    case JBool(b) => b
    case JNum(n) => n != 0
    case JStr(s) => s != ""
    case JArr(items) => items != []
    case JObj(fields) => fields != []
  }

  /** `d.get(k)`: the value bound to `k`, if any. */
  function Get(d: Fields, k: string): Option<Json>
  {
    if |d| == 0 then None
    else if d[|d| - 1].0 == k then Some(d[|d| - 1].1)
    else Get(d[..|d| - 1], k)
  }

  /** `k in d`. */
  predicate HasKey(d: Fields, k: string)
  {
    Get(d, k).Some?
  }

  /** `d.get(k, default)`. */
  function GetOr(d: Fields, k: string, default: Json): Json
  {
    match Get(d, k)
    case Some(v) => v
    case None => default
  }

  /** No key is bound twice (every Python dict). */
  predicate UniqueKeys(d: Fields)
  {
    forall i, j :: 0 <= i < j < |d| ==> d[i].0 != d[j].0
  }

  /** Every key listed in `d` is found by `Get`, and nothing else is. */
  lemma {:induction false} HasKeyListed(d: Fields, k: string)
    ensures HasKey(d, k) <==> exists i :: 0 <= i < |d| && d[i].0 == k
  {
    if |d| > 0 {
      var init := d[..|d| - 1];
      HasKeyListed(init, k);
      if d[|d| - 1].0 != k && HasKey(init, k) {
        var i :| 0 <= i < |init| && init[i].0 == k;
        assert d[i].0 == k;
      }
      if d[|d| - 1].0 != k && exists i :: 0 <= i < |d| && d[i].0 == k {
        var i :| 0 <= i < |d| && d[i].0 == k;
        assert init[i].0 == k;
      }
    }
  }

  /** In a dict, every listed binding is what lookup finds. */
  lemma {:induction false} GetListed(d: Fields, i: nat)
    requires UniqueKeys(d) && i < |d|
    ensures Get(d, d[i].0) == Some(d[i].1)
  {
    if i < |d| - 1 {
      var init := d[..|d| - 1];
      assert init[i] == d[i];
      GetListed(init, i);
    }
  }

  /** Give every binding of `k` the value `v`, in place. */
  function Rebind(d: Fields, k: string, v: Json): (r: Fields)
    ensures |r| == |d|
    ensures forall i :: 0 <= i < |d| ==> r[i].0 == d[i].0
    ensures forall k' :: Get(r, k') == if k' == k && HasKey(d, k) then Some(v) else Get(d, k')
  {
    if |d| == 0 then []
    else
      var init := Rebind(d[..|d| - 1], k, v);
      var last := if d[|d| - 1].0 == k then (k, v) else d[|d| - 1];
      assert (init + [last])[..|d| - 1] == init;
      init + [last]
  }

  /** `d[k] = v`: rebind `k` in place when present, otherwise append it. */
  function Put(d: Fields, k: string, v: Json): (r: Fields)
    ensures forall k' :: Get(r, k') == if k' == k then Some(v) else Get(d, k')
    ensures |d| <= |r| <= |d| + 1
    ensures forall i :: 0 <= i < |d| ==> r[i].0 == d[i].0
    ensures forall i :: |d| <= i < |r| ==> r[i].0 == k && !HasKey(d, k)
    ensures UniqueKeys(d) ==> UniqueKeys(r)
  {
    if HasKey(d, k) then Rebind(d, k, v)
    else
      var r := d + [(k, v)];
      assert r[..|d|] == d;
      assert UniqueKeys(d) ==> UniqueKeys(r) by {
        if UniqueKeys(d) {
          forall i | 0 <= i < |d| ensures d[i].0 != k {
            HasKeyListed(d, k);
          }
        }
      }
      r
  }

  /**
   * `d.update(t)`: the bindings of `t` assigned into `d` one after the other,
   * in `t`'s order.
   */
  function Update(d: Fields, t: Fields): (r: Fields)
    ensures |d| <= |r| <= |d| + |t|
    ensures forall i :: 0 <= i < |d| ==> r[i].0 == d[i].0
    ensures UniqueKeys(d) ==> UniqueKeys(r)
    decreases |t|
  {
    if |t| == 0 then d
    else Put(Update(d, t[..|t| - 1]), t[|t| - 1].0, t[|t| - 1].1)
  }

  /**
   * The shallow merge: a key of `t` is bound to `t`'s value, any other key keeps
   * its value in `d`, and nothing else is bound.
   */
  lemma {:induction false} UpdateGet(d: Fields, t: Fields, k: string)
    ensures Get(Update(d, t), k) == if HasKey(t, k) then Get(t, k) else Get(d, k)
    decreases |t|
  {
    if |t| > 0 {
      UpdateGet(d, t[..|t| - 1], k);
    }
  }

  /** The keys `update` appends after those of `d` are new keys of `t`. */
  lemma {:induction false} UpdateAppends(d: Fields, t: Fields)
    ensures forall i :: |d| <= i < |Update(d, t)| ==> HasKey(t, Update(d, t)[i].0) && !HasKey(d, Update(d, t)[i].0)
    decreases |t|
  {
    if |t| > 0 {
      var init := t[..|t| - 1];
      UpdateAppends(d, init);
      var prev := Update(d, init);
      var r := Update(d, t);
      forall i | |d| <= i < |r| ensures HasKey(t, r[i].0) && !HasKey(d, r[i].0) {
        if i < |prev| {
          assert r[i].0 == prev[i].0;
          UpdateGet(d, init, prev[i].0);
        } else {
          assert r[i].0 == t[|t| - 1].0 && !HasKey(prev, r[i].0);
          UpdateGet(d, init, r[i].0);
        }
      }
    }
  }

  /** The JSON library and Python's `repr`, which the model does not look inside. */
  datatype Codec = Codec(
    dumps: Json -> string,          // json.dumps
    loads: string -> Option<Json>,  // json.loads; None where it raises
    repr: Json -> string)           // repr of a list or dict, as str() renders it

  /** Parsing the serialised form of `j` gives `j` back. */
  predicate RoundTrips(codec: Codec, j: Json)
  {
    codec.loads(codec.dumps(j)) == Some(j)
  }

  /** Python's `str(v)` for a decoded JSON value. */
  function PyStr(j: Json, codec: Codec): string
  {
    match j
    case JNull => "None"
    case JBool(b) => if b then "True" else "False"
    case JNum(n) => Text.IntToString(n)
    case JStr(s) => s
    case _ => codec.repr(j)
  }
}
