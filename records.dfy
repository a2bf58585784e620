/** JavaScript objects used as dictionaries from a string key to a list of
    strings, built by the idiom

        if (!map[k]) map[k] = [];
        if (!map[k].includes(v)) map[k].push(v);

    The keys are kept in insertion order. Object.keys reports that order
    for keys that are not array indices; keys such as "1" or "42" it lists
    first, in numeric order, which this model does not capture.
    `Group` is the reference meaning of that idiom run over a sequence of
    (key, value) pairs; `PushStep` says one run of the idiom extends it. */
module Records {
  import opened Seqs

  /** A dictionary object: its keys in insertion order and the value under
      each key. */
  datatype Record<V> = Record(keys: seq<string>, at: map<string, V>)

  /** The key list holds every key of the map exactly once. */
  ghost predicate WellFormed<V>(r: Record<V>) {
    Distinct(r.keys) && forall k :: k in r.at <==> k in r.keys
  }

  /** The dictionary lists `v` under `k`. */
  predicate Lists(r: Record<seq<string>>, k: string, v: string) {
    k in r.at && v in r.at[k]
  }

  /** One run of the idiom: create the list under `k` if missing, then
      append `v` unless it is already there. */
  function Push(r: Record<seq<string>>, k: string, v: string): Record<seq<string>> {
    var r1 := if k !in r.at then Record(r.keys + [k], r.at[k := []]) else r;
    if v !in r1.at[k] then Record(r1.keys, r1.at[k := r1.at[k] + [v]]) else r1
  }

  /** The keys of a pair sequence, in order, repeats included. */
  function Keys(ps: seq<(string, string)>): seq<string> {
    if ps == [] then [] else Keys(ps[..|ps| - 1]) + [ps[|ps| - 1].0]
  }

  /** The values paired with `k`, in order, repeats included. */
  function ValuesAt(ps: seq<(string, string)>, k: string): seq<string> {
    if ps == [] then []
    else
      var p := ps[|ps| - 1];
      ValuesAt(ps[..|ps| - 1], k) + (if p.0 == k then [p.1] else [])
  }

  /** The reference meaning of the idiom: keys in first-seen order, and under
      each key its distinct values in first-seen order. */
  function Group(ps: seq<(string, string)>): Record<seq<string>> {
    Record(Dedup(Keys(ps)), map k | k in Keys(ps) :: Dedup(ValuesAt(ps, k)))
  }

  lemma PairsStep(ps: seq<(string, string)>, p: (string, string), k: string)
    ensures Keys(ps + [p]) == Keys(ps) + [p.0]
    ensures ValuesAt(ps + [p], k) == ValuesAt(ps, k) + (if p.0 == k then [p.1] else [])
  {
    assert (ps + [p])[..|ps|] == ps;
  }

  lemma {:induction false} KeysMembership(ps: seq<(string, string)>, k: string)
    ensures k in Keys(ps) <==> exists i :: 0 <= i < |ps| && ps[i].0 == k
  {
    if ps != [] {
      var init := ps[..|ps| - 1];
      KeysMembership(init, k);
      assert forall i :: 0 <= i < |init| ==> init[i] == ps[i];
    }
  }

  lemma {:induction false} ValuesAtMembership(ps: seq<(string, string)>, k: string, v: string)
    ensures v in ValuesAt(ps, k) <==> (k, v) in ps
  {
    if ps != [] {
      var init := ps[..|ps| - 1];
      ValuesAtMembership(init, k, v);
      assert ps == init + [ps[|ps| - 1]];
    }
  }

  /** A key that occurs in no pair has no values. */
  lemma {:induction false} NoValuesAtUnseenKey(ps: seq<(string, string)>, k: string)
    requires k !in Keys(ps)
    ensures ValuesAt(ps, k) == []
  {
    if ps != [] {
      NoValuesAtUnseenKey(ps[..|ps| - 1], k);
    }
  }

  lemma GroupEmpty()
    ensures Group([]) == Record([], map[])
  {
  }

  lemma {:induction false} PushAt(ps: seq<(string, string)>, p: (string, string), k: string)
    requires k in Push(Group(ps), p.0, p.1).at
    ensures Push(Group(ps), p.0, p.1).at[k] == Dedup(ValuesAt(ps + [p], k))
  {
    PairsStep(ps, p, k);
    if k != p.0 {
      assert ValuesAt(ps + [p], k) == ValuesAt(ps, k);
    } else if k in Keys(ps) {
      DedupStep(ValuesAt(ps, k), p.1);
    } else {
      NoValuesAtUnseenKey(ps, k);
      assert ValuesAt(ps + [p], k) == [p.1];
      DedupStep([], p.1);
      assert [] + [p.1] == [p.1];
    }
  }

  lemma PushKeys(ps: seq<(string, string)>, p: (string, string))
    ensures Group(ps + [p]).keys == Push(Group(ps), p.0, p.1).keys
    ensures forall k :: k in Group(ps + [p]).at <==> k in Push(Group(ps), p.0, p.1).at
  {
    PairsStep(ps, p, "");
    DedupStep(Keys(ps), p.0);
    DedupMembership(Keys(ps), p.0);
  }

  /** One run of the idiom on the grouping of `ps` gives the grouping of `ps`
      extended by the pair: the loop invariant of every builder that uses it. */
  lemma {:induction false} PushStep(ps: seq<(string, string)>, p: (string, string))
    ensures Group(ps + [p]) == Push(Group(ps), p.0, p.1)
  {
    var g := Group(ps + [p]);
    var r := Push(Group(ps), p.0, p.1);
    PushKeys(ps, p);
    forall k | k in r.at ensures r.at[k] == g.at[k] {
      PushAt(ps, p, k);
    }
    MapsAgree(g.at, r.at);
  }

  /** What the grouping promises: every key once, a value listed under a key
      exactly when the pair occurs, each list duplicate-free and non-empty. */
  lemma {:induction false} GroupProperties(ps: seq<(string, string)>)
    ensures WellFormed(Group(ps))
    ensures forall k, v :: Lists(Group(ps), k, v) <==> (k, v) in ps
    ensures forall k :: k in Group(ps).at ==> Distinct(Group(ps).at[k]) && Group(ps).at[k] != []
  {
    var g := Group(ps);
    DedupDistinct(Keys(ps));
    forall k ensures k in g.at <==> k in g.keys {
      DedupMembership(Keys(ps), k);
    }
    forall k, v ensures Lists(g, k, v) <==> (k, v) in ps {
      ValuesAtMembership(ps, k, v);
      KeysMembership(ps, k);
      if k in g.at {
        DedupMembership(ValuesAt(ps, k), v);
      }
    }
    forall k | k in g.at ensures Distinct(g.at[k]) && g.at[k] != [] {
      DedupDistinct(ValuesAt(ps, k));
      KeysMembership(ps, k);
      var i :| 0 <= i < |ps| && ps[i].0 == k;
      assert ps[i] == (k, ps[i].1);
      ValuesAtMembership(ps, k, ps[i].1);
      DedupMembership(ValuesAt(ps, k), ps[i].1);
    }
  }
}
