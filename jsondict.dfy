/**
  What `json.loads` builds from a parsed text: every object becomes a Python
  dict, so a key that occurs twice keeps its first position and its last value.
  The values `json.dumps` can write are exactly those whose objects have
  distinct keys, here `DictLike`.
*/
module JsonDict {
  import opened Wrappers
  import opened Json

  /** No two members share a key, as in a dict. */
  predicate DistinctKeys(members: seq<Member>)
  {
    forall i, j :: 0 <= i < j < |members| ==> members[i].key != members[j].key
  }

  /** A value every object of which, at any depth, has distinct keys. */
  predicate DictLike(j: Json)
    decreases j
  {
    match j
    case JArray(items) => forall k :: 0 <= k < |items| ==> DictLike(items[k])
    case JObject(members) => DistinctKeys(members) && forall k :: 0 <= k < |members| ==> DictLike(members[k].value)
    case _ => true
  }

  /** The position of the first member with `key`. */
  function IndexOf(members: seq<Member>, key: string): (r: Option<nat>)
    ensures r.Some? ==> r.value < |members| && members[r.value].key == key
    ensures r.None? <==> forall i :: 0 <= i < |members| ==> members[i].key != key
  {
    if members == [] then None
    else if members[0].key == key then Some(0)
    else
      match IndexOf(members[1..], key)
      case Some(i) => assert members[1..][i] == members[i + 1]; Some(i + 1)
      case None => assert forall i :: 1 <= i < |members| ==> members[i] == members[1..][i - 1]; None
  }

  /**
    `d[m.key] = m.value`: a key already present keeps its place and takes the
    new value, a new key goes last.
  */
  function Put(members: seq<Member>, m: Member): (r: seq<Member>)
    ensures DistinctKeys(members) ==> DistinctKeys(r)
    ensures m in r
    ensures forall x :: x in r ==> x in members || x == m
    ensures forall x :: x in members && x.key != m.key ==> x in r
  {
    match IndexOf(members, m.key)
    case Some(i) =>
      var r := members[i := m];
      assert r[i] == m;
      assert forall l :: 0 <= l < |members| && members[l].key != m.key ==> r[l] == members[l];
      r
    case None => members + [m]
  }

  /** The dict built from an object's members, read in order. */
  function Dedup(members: seq<Member>): (r: seq<Member>)
    ensures DistinctKeys(r)
    ensures forall x :: x in r ==> x in members
    decreases |members|
  {
    if members == [] then []
    else Put(Dedup(members[..|members| - 1]), members[|members| - 1])
  }

  /** A member that no later member overrides survives into the dict. */
  lemma {:induction false} DedupKeepsLast(members: seq<Member>, i: nat)
    requires i < |members|
    requires forall l :: i < l < |members| ==> members[l].key != members[i].key
    ensures members[i] in Dedup(members)
    decreases |members|
  {
    var init := members[..|members| - 1];
    if i < |members| - 1 {
      assert init[i] == members[i];
      forall l | i < l < |init| ensures init[l].key != init[i].key {
        assert init[l] == members[l];
      }
      DedupKeepsLast(init, i);
    }
  }

  /** Members with distinct keys already are the dict. */
  lemma {:induction false} DedupDistinct(members: seq<Member>)
    requires DistinctKeys(members)
    ensures Dedup(members) == members
    decreases |members|
  {
    if members != [] {
      var init := members[..|members| - 1];
      var last := members[|members| - 1];
      DedupDistinct(init);
      assert IndexOf(init, last.key).None? by {
        forall i | 0 <= i < |init| ensures init[i].key != last.key {
          assert init[i] == members[i];
        }
      }
      assert init + [last] == members;
    }
  }

  /** Two members with one key: the dict holds the second. */
  lemma {:induction false} LaterKeyWins(key: string, first: Json, second: Json)
    ensures Dedup([Member(key, first), Member(key, second)]) == [Member(key, second)]
  {
    var ms := [Member(key, first), Member(key, second)];
    assert ms[..1] == [Member(key, first)];
    assert Dedup(ms[..1]) == [Member(key, first)] by {
      assert ms[..1][..0] == [];
    }
    assert IndexOf([Member(key, first)], key) == Some(0);
  }

  /** The value `json.loads` returns for the text of `j`: every object, at any depth, made a dict. */
  function Loaded(j: Json): (r: Json)
    ensures DictLike(r)
    decreases j
  {
    match j
    case JArray(items) =>
      JArray(seq(|items|, k requires 0 <= k < |items| => Loaded(items[k])))
    case JObject(members) =>
      var ms := seq(|members|, k requires 0 <= k < |members| => Member(members[k].key, Loaded(members[k].value)));
      assert forall x :: x in ms ==> DictLike(x.value);
      JObject(Dedup(ms))
    case _ => j
  }

  /** An object that repeats a key loads with the key once, holding its last value. */
  lemma LoadedRepeatedKey(key: string, first: Json, second: Json)
    ensures Loaded(JObject([Member(key, first), Member(key, second)])) == JObject([Member(key, Loaded(second))])
  {
    var members := [Member(key, first), Member(key, second)];
    var ms := seq(|members|, k requires 0 <= k < |members| => Member(members[k].key, Loaded(members[k].value)));
    assert ms == [Member(key, Loaded(first)), Member(key, Loaded(second))];
    LaterKeyWins(key, Loaded(first), Loaded(second));
  }

  /** A value `json.dumps` can write (its objects are dicts) is loaded as itself. */
  lemma {:induction false} LoadedDictLike(j: Json)
    requires DictLike(j)
    ensures Loaded(j) == j
    decreases j
  {
    match j
    case JArray(items) =>
      forall k | 0 <= k < |items| ensures Loaded(items[k]) == items[k] {
        LoadedDictLike(items[k]);
      }
      assert Loaded(j).items == items;
    case JObject(members) =>
      var ms := seq(|members|, k requires 0 <= k < |members| => Member(members[k].key, Loaded(members[k].value)));
      forall k | 0 <= k < |members| ensures ms[k] == members[k] {
        LoadedDictLike(members[k].value);
      }
      assert ms == members;
      DedupDistinct(members);
    case _ =>
  }
}
