/** A Python `dict` from strings to strings, as an insertion-ordered list of
    entries: assigning to an existing key overwrites it in place, assigning a
    new key appends it. This is the order `json.dumps` writes the keys in. */
module OrderedDict {
  import opened Wrappers

  type Dict = seq<(string, string)>

  function Keys(d: Dict): seq<string>
  {
    seq(|d|, i requires 0 <= i < |d| => d[i].0)
  }

  predicate UniqueKeys(d: Dict)
  {
    forall i, j :: 0 <= i < j < |d| ==> d[i].0 != d[j].0
  }

  /** `d[k]`, or None for a missing key. */
  function Get(d: Dict, k: string): Option<string>
  {
    if |d| == 0 then None
    else if d[0].0 == k then Some(d[0].1)
    else Get(d[1..], k)
  }

  /** `d[k] = v`. */
  function Set(d: Dict, k: string, v: string): Dict
  {
    if |d| == 0 then [(k, v)]
    else if d[0].0 == k then [(k, v)] + d[1..]
    else [d[0]] + Set(d[1..], k, v)
  }

  lemma {:induction false} GetMissing(d: Dict, k: string)
    ensures Get(d, k).None? <==> k !in Keys(d)
  {
    if |d| > 0 {
      GetMissing(d[1..], k);
      assert Keys(d) == [d[0].0] + Keys(d[1..]);
    }
  }

  /** Assignment stores the value under its key. */
  lemma {:induction false} SetGetSame(d: Dict, k: string, v: string)
    ensures Get(Set(d, k, v), k) == Some(v)
  {
    if |d| > 0 && d[0].0 != k {
      SetGetSame(d[1..], k, v);
    }
  }

  /** Assignment leaves every other key's value alone. */
  lemma {:induction false} SetGetOther(d: Dict, k: string, v: string, k': string)
    requires k' != k
    ensures Get(Set(d, k, v), k') == Get(d, k')
  {
    if |d| > 0 && d[0].0 != k {
      SetGetOther(d[1..], k, v, k');
    }
  }

  /** The keys keep their order; a new key goes at the end. */
  lemma {:induction false} SetKeys(d: Dict, k: string, v: string)
    ensures Keys(Set(d, k, v)) == if k in Keys(d) then Keys(d) else Keys(d) + [k]
  {
    if |d| > 0 {
      SetKeys(d[1..], k, v);
      assert Keys(d) == [d[0].0] + Keys(d[1..]);
      if d[0].0 != k {
        assert Keys(Set(d, k, v)) == [d[0].0] + Keys(Set(d[1..], k, v));
      } else {
        assert Keys(Set(d, k, v)) == Keys(d);
      }
    }
  }

  /** Assignment keeps the keys unique. */
  lemma SetUnique(d: Dict, k: string, v: string)
    requires UniqueKeys(d)
    ensures UniqueKeys(Set(d, k, v))
  {
    SetKeys(d, k, v);
    var s := Set(d, k, v);
    forall i, j | 0 <= i < j < |s| ensures s[i].0 != s[j].0 {
      assert Keys(s)[i] == s[i].0 && Keys(s)[j] == s[j].0;
      if k in Keys(d) {
        assert Keys(d)[i] == d[i].0 && Keys(d)[j] == d[j].0;
      } else if j < |d| {
        assert Keys(d)[i] == d[i].0 && Keys(d)[j] == d[j].0;
      } else {
        assert Keys(d)[i] == d[i].0;
      }
    }
  }

  /** The four facts about `d[k] = v` together. */
  lemma SetGet(d: Dict, k: string, v: string)
    ensures Get(Set(d, k, v), k) == Some(v)
    ensures forall k' :: k' != k ==> Get(Set(d, k, v), k') == Get(d, k')
    ensures Keys(Set(d, k, v)) == if k in Keys(d) then Keys(d) else Keys(d) + [k]
    ensures UniqueKeys(d) ==> UniqueKeys(Set(d, k, v))
  {
    SetGetSame(d, k, v);
    forall k' | k' != k ensures Get(Set(d, k, v), k') == Get(d, k') {
      SetGetOther(d, k, v, k');
    }
    SetKeys(d, k, v);
    if UniqueKeys(d) {
      SetUnique(d, k, v);
    }
  }
}
