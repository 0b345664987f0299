/** The chatbot's `user_data`: a Python `dict` from `str` to `str`. Python dicts
    keep insertion order, and that order is what `json.dumps` writes out, so a
    dict is modelled as its sequence of fields with no key repeated. */
module Dicts {
  import opened Wrappers

  datatype Field = Field(key: string, value: string)

  predicate DistinctKeys(fs: seq<Field>) {
    forall i, j :: 0 <= i < j < |fs| ==> fs[i].key != fs[j].key
  }

  type Dict = fs: seq<Field> | DistinctKeys(fs)

  function Keys(fs: seq<Field>): set<string> {
    set i | 0 <= i < |fs| :: fs[i].key
  }

  lemma KeysCons(f: Field, fs: seq<Field>)
    ensures Keys([f] + fs) == {f.key} + Keys(fs)
  {
    var l := [f] + fs;
    forall x | x in Keys(l) ensures x in {f.key} + Keys(fs) {
      var i :| 0 <= i < |l| && l[i].key == x;
      if i > 0 { assert fs[i - 1].key == x; }
    }
    forall x | x in Keys(fs) ensures x in Keys(l) {
      var i :| 0 <= i < |fs| && fs[i].key == x;
      assert l[i + 1].key == x;
    }
    assert l[0].key == f.key;
  }

  /** `d.get(k)`: the value stored under `k`, if any. */
  function Get(d: Dict, k: string): (r: Option<string>)
    ensures k !in Keys(d) ==> r == None
    ensures forall i :: 0 <= i < |d| && d[i].key == k ==> r == Some(d[i].value)
  {
    if |d| == 0 then None
    else if d[0].key == k then Some(d[0].value)
    else Get(d[1..], k)
  }

  /** The position of `k` in `fs`, if it is there. */
  function IndexOf(fs: seq<Field>, k: string): (r: Option<nat>)
    ensures r.None? <==> k !in Keys(fs)
    ensures r.Some? ==> r.value < |fs| && fs[r.value].key == k
  {
    if |fs| == 0 then None
    else if fs[0].key == k then Some(0)
    else
      KeysCons(fs[0], fs[1..]);
      assert fs == [fs[0]] + fs[1..];
      match IndexOf(fs[1..], k)
      case None => None
      case Some(i) => Some(i + 1)
  }

  /** `d[k] = v`: an existing key keeps its position and gets the new value; a
      new key is appended at the end. */
  function Put(d: Dict, k: string, v: string): (r: Dict)
    ensures Keys(r) == Keys(d) + {k}
    ensures forall i :: 0 <= i < |d| && d[i].key == k ==> r == d[i := Field(k, v)]
    ensures k !in Keys(d) ==> r == d + [Field(k, v)]
  {
    match IndexOf(d, k)
    case Some(i) =>
      var r := d[i := Field(k, v)];
      assert forall j :: 0 <= j < |r| ==> r[j].key == d[j].key;
      assert Keys(r) == Keys(d);
      r
    case None =>
      var r := d + [Field(k, v)];
      assert forall j :: 0 <= j < |d| ==> r[j] == d[j];
      assert r[|d|].key == k;
      assert Keys(r) == Keys(d) + {k};
      r
  }

  /** Reading back after `d[k] = v` sees `v` under `k` and the old values elsewhere. */
  lemma PutThenGet(d: Dict, k: string, v: string, k': string)
    ensures Get(Put(d, k, v), k) == Some(v)
    ensures k' != k ==> Get(Put(d, k, v), k') == Get(d, k')
  {
    var r := Put(d, k, v);
    if k in Keys(d) {
      var i :| 0 <= i < |d| && d[i].key == k;
      assert r[i] == Field(k, v);
      if k' != k && k' in Keys(d) {
        var j :| 0 <= j < |d| && d[j].key == k';
        assert r[j] == d[j];
      }
    } else {
      assert r[|d|] == Field(k, v);
      if k' != k && k' in Keys(d) {
        var j :| 0 <= j < |d| && d[j].key == k';
        assert r[j] == d[j];
      }
    }
  }
}
