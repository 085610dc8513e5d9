/**
 * `NioCommand._get_params` and the `urlencode` of its result. The block's
 * `params` list holds URLParameter entries whose name and value expressions
 * are evaluated against the incoming signal; here each entry arrives already
 * evaluated, `None` standing for an evaluation that raised.
 */
module Params {
  import opened Wrappers
  import opened Text

  /** One `URLParameter` after evaluating `prop_name(signal)` and `prop_value(signal)`. */
  datatype ParamEval = ParamEval(name: Option<string>, value: Option<string>)

  /** The entry assigns `value` to `key`: both of its evaluations succeeded, the name gave `key`. */
  predicate Assigns(e: ParamEval, key: string) {
    e.name == Some(key) && e.value.Some?
  }

  /** A Python dict of strings, as its items in insertion order. */
  type Dict = seq<(string, string)>

  ghost predicate DistinctKeys(d: Dict) {
    forall i, j :: 0 <= i < j < |d| ==> d[i].0 != d[j].0
  }

  /** The position of `key` in `d`, or `|d|` when `key` is absent. */
  function IndexOf(d: Dict, key: string): (i: nat)
    ensures i <= |d|
    ensures i < |d| ==> d[i].0 == key
    ensures forall j :: 0 <= j < i ==> d[j].0 != key
    decreases |d|
  {
    if d == [] then 0
    else if d[0].0 == key then 0
    else 1 + IndexOf(d[1..], key)
  }

  /** `d.get(key)`. */
  function Lookup(d: Dict, key: string): Option<string> {
    var i := IndexOf(d, key);
    if i < |d| then Some(d[i].1) else None
  }

  /** The first position holding `key` is `IndexOf`. */
  lemma IndexOfFirst(d: Dict, key: string, i: nat)
    requires i <= |d|
    requires i < |d| ==> d[i].0 == key
    requires forall j :: 0 <= j < i ==> d[j].0 != key
    ensures IndexOf(d, key) == i
  {
  }

  /**
   * `d[key] = value`: a key already present keeps its position and takes the
   * new value; a new key goes at the end.
   */
  function Store(d: Dict, key: string, value: string): (r: Dict)
    ensures |r| == if Lookup(d, key).Some? then |d| else |d| + 1
    ensures forall j :: 0 <= j < |d| ==> r[j].0 == d[j].0
    ensures Lookup(r, key) == Some(value)
    ensures forall other :: other != key ==> Lookup(r, other) == Lookup(d, other)
    ensures DistinctKeys(d) ==> DistinctKeys(r)
  {
    var i := IndexOf(d, key);
    var r := if i < |d| then d[i := (key, value)] else d + [(key, value)];
    IndexOfFirst(r, key, i);
    forall other | other != key
      ensures Lookup(r, other) == Lookup(d, other)
    {
      var k := IndexOf(d, other);
      IndexOfFirst(r, other, if k < |d| then k else |r|);
    }
    r
  }

  /**
   * The dict `_get_params` returns for the evaluated entries: entries whose
   * evaluation raised are skipped, the others are assigned in order.
   */
  function ParamsOf(entries: seq<ParamEval>): (d: Dict)
    ensures DistinctKeys(d)
    decreases |entries|
  {
    if entries == [] then []
    else
      var last := entries[|entries| - 1];
      var d := ParamsOf(entries[..|entries| - 1]);
      if last.name.Some? && last.value.Some? then Store(d, last.name.value, last.value.value) else d
  }

  /** `_get_params`: the loop over the configured parameters. */
  method GetParams(entries: seq<ParamEval>) returns (params: Dict)
    ensures params == ParamsOf(entries)
  {
    params := [];
    for i := 0 to |entries|
      invariant params == ParamsOf(entries[..i])
    {
      assert entries[..i + 1][..i] == entries[..i];
      var entry := entries[i];
      // Python evaluates the value before the name; either raising skips the entry
      if entry.value.Some? && entry.name.Some? {
        params := Store(params, entry.name.value, entry.value.value);
      }
    }
    assert entries[..|entries|] == entries;
  }

  /** Some entry assigned `key`. */
  ghost predicate AssignedIn(entries: seq<ParamEval>, key: string) {
    exists i :: 0 <= i < |entries| && Assigns(entries[i], key)
  }

  /** A key is present exactly when some entry assigned it. */
  lemma {:induction false} ParamsOfHasKey(entries: seq<ParamEval>, key: string)
    ensures Lookup(ParamsOf(entries), key).Some? <==> AssignedIn(entries, key)
    decreases |entries|
  {
    if entries != [] {
      var n := |entries| - 1;
      ParamsOfHasKey(entries[..n], key);
      AssignedInSnoc(entries, key);
      if Assigns(entries[n], key) {
        ParamsOfLast(entries, key);
      } else {
        ParamsOfOther(entries, key);
      }
    }
  }

  lemma AssignedInSnoc(entries: seq<ParamEval>, key: string)
    requires entries != []
    ensures AssignedIn(entries, key) <==>
            AssignedIn(entries[..|entries| - 1], key) || Assigns(entries[|entries| - 1], key)
  {
    var n := |entries| - 1;
    var prefix := entries[..n];
    if AssignedIn(entries, key) && !Assigns(entries[n], key) {
      var i :| 0 <= i < |entries| && Assigns(entries[i], key);
      assert prefix[i] == entries[i];
    }
    if AssignedIn(prefix, key) {
      var i :| 0 <= i < n && Assigns(prefix[i], key);
      assert entries[i] == prefix[i];
    }
  }

  /** An entry that does not assign `key` leaves its lookup as it was. */
  lemma ParamsOfOther(entries: seq<ParamEval>, key: string)
    requires entries != [] && !Assigns(entries[|entries| - 1], key)
    ensures Lookup(ParamsOf(entries), key) == Lookup(ParamsOf(entries[..|entries| - 1]), key)
  {
  }

  /** One more entry neither moves nor drops the keys already collected. */
  lemma ParamsOfStep(entries: seq<ParamEval>)
    requires entries != []
    ensures var before, after := ParamsOf(entries[..|entries| - 1]), ParamsOf(entries);
            && |before| <= |after|
            && (forall j :: 0 <= j < |before| ==> after[j].0 == before[j].0)
  {
  }

  /** The newest entry's assignment is what a lookup finds. */
  lemma ParamsOfLast(entries: seq<ParamEval>, key: string)
    requires entries != [] && Assigns(entries[|entries| - 1], key)
    ensures Lookup(ParamsOf(entries), key) == entries[|entries| - 1].value
  {
    var last := entries[|entries| - 1];
    assert ParamsOf(entries) == Store(ParamsOf(entries[..|entries| - 1]), key, last.value.value);
  }

  /** Later entries overwrite earlier ones: a key holds the value of the last entry that assigned it. */
  lemma {:induction false} ParamsOfLastWins(entries: seq<ParamEval>, key: string, i: nat)
    requires i < |entries| && Assigns(entries[i], key)
    requires forall j :: i < j < |entries| ==> !Assigns(entries[j], key)
    ensures Lookup(ParamsOf(entries), key) == entries[i].value
    decreases |entries|
  {
    var n := |entries| - 1;
    if i < n {
      var prefix := entries[..n];
      assert prefix[i] == entries[i];
      assert forall j :: i < j < |prefix| ==> prefix[j] == entries[j];
      ParamsOfLastWins(prefix, key, i);
      assert !Assigns(entries[n], key);
      ParamsOfOther(entries, key);
    } else {
      ParamsOfLast(entries, key);
    }
  }

  /** Later entries never move the keys earlier entries placed: the items only grow at the end. */
  lemma {:induction false} ParamsOfKeepsOrder(entries: seq<ParamEval>, more: seq<ParamEval>)
    ensures |ParamsOf(entries)| <= |ParamsOf(entries + more)|
    ensures forall j :: 0 <= j < |ParamsOf(entries)| ==>
              ParamsOf(entries + more)[j].0 == ParamsOf(entries)[j].0
    decreases |more|
  {
    if more == [] {
      assert entries + more == entries;
    } else {
      var front := more[..|more| - 1];
      var all := entries + more;
      ParamsOfKeepsOrder(entries, front);
      assert all[..|all| - 1] == entries + front;
      ParamsOfStep(all);
      var a, b, c := ParamsOf(entries), ParamsOf(entries + front), ParamsOf(all);
      assert forall j :: 0 <= j < |a| ==> c[j].0 == b[j].0 == a[j].0;
    }
  }

  /** The two parameters of the block's own test give both pairs, in order. */
  lemma TwoParams()
    ensures ParamsOf([ParamEval(Some("param1"), Some("value1")), ParamEval(Some("param2"), Some("value2"))])
            == [("param1", "value1"), ("param2", "value2")]
  {
    var e1, e2 := ParamEval(Some("param1"), Some("value1")), ParamEval(Some("param2"), Some("value2"));
    assert [e1, e2][..1] == [e1];
    assert [e1][..0] == [];
    assert "param1" != "param2" by { assert "param1"[5] != "param2"[5]; }
  }

  /** `k=v` for one item. */
  function EncodePair(item: (string, string)): string {
    item.0 + "=" + item.1
  }

  function EncodeItems(d: Dict): (parts: seq<string>)
    ensures |parts| == |d|
    ensures forall j :: 0 <= j < |d| ==> parts[j] == EncodePair(d[j])
    decreases |d|
  {
    if d == [] then [] else [EncodePair(d[0])] + EncodeItems(d[1..])
  }

  /** `urlencode(d)` for items needing no percent-encoding: the `k=v` pairs joined by "&". */
  function Query(d: Dict): string {
    Join(EncodeItems(d), '&')
  }

  /** Reference reading of a query: split on "&", then each piece at its first "=". */
  function ParseQuery(q: string): Dict {
    if q == [] then [] else ParsePairs(Split(q, '&'))
  }

  function ParsePairs(parts: seq<string>): (d: Dict)
    ensures |d| == |parts|
    decreases |parts|
  {
    if parts == [] then [] else [ParsePair(parts[0])] + ParsePairs(parts[1..])
  }

  function ParsePair(part: string): (string, string) {
    var i := FirstIndex(part, '=');
    if i < |part| then (part[..i], part[i + 1..]) else (part, "")
  }

  /** The items may be encoded without escaping: keys hold no '&' or '=', values no '&'. */
  ghost predicate PlainItems(d: Dict) {
    forall j :: 0 <= j < |d| ==> '&' !in d[j].0 && '=' !in d[j].0 && '&' !in d[j].1
  }

  lemma ParsePairOfEncoded(item: (string, string))
    requires '=' !in item.0
    ensures ParsePair(EncodePair(item)) == item
  {
    FirstIndexOfPrefix(item.0, '=', item.1);
    var s := EncodePair(item);
    assert s[..|item.0|] == item.0;
    assert s[|item.0| + 1..] == item.1;
  }

  lemma {:induction false} ParsePairsOfEncoded(d: Dict)
    requires PlainItems(d)
    ensures ParsePairs(EncodeItems(d)) == d
    decreases |d|
  {
    if d != [] {
      ParsePairOfEncoded(d[0]);
      ParsePairsOfEncoded(d[1..]);
      assert EncodeItems(d)[1..] == EncodeItems(d[1..]);
    }
  }

  /** Plain items can be read back from the query string, in their dict order. */
  lemma QueryRoundTrip(d: Dict)
    requires PlainItems(d)
    ensures ParseQuery(Query(d)) == d
  {
    var parts := EncodeItems(d);
    if d != [] {
      forall j | 0 <= j < |parts|
        ensures '&' !in parts[j]
      {
        assert parts[j] == d[j].0 + "=" + d[j].1;
      }
      SplitJoin(parts, '&');
      assert '=' in parts[0];
      assert Query(d) != [] by {
        if |parts| == 1 { assert Query(d) == parts[0]; }
      }
      ParsePairsOfEncoded(d);
    }
  }

  lemma EncodePairOfParsed(part: string)
    requires '=' in part
    ensures EncodePair(ParsePair(part)) == part
  {
    var i := FirstIndex(part, '=');
    assert part == part[..i] + "=" + part[i + 1..];
  }

  lemma {:induction false} EncodeItemsOfParsed(parts: seq<string>)
    requires forall k :: 0 <= k < |parts| ==> '=' in parts[k]
    ensures EncodeItems(ParsePairs(parts)) == parts
    decreases |parts|
  {
    if parts != [] {
      EncodePairOfParsed(parts[0]);
      EncodeItemsOfParsed(parts[1..]);
      assert ParsePairs(parts)[1..] == ParsePairs(parts[1..]);
    }
  }

  /**
   * The other direction: a query whose every '&'-piece holds a '=' is the
   * `urlencode` of the dict it reads as, so `Query` reaches every such query.
   */
  lemma QueryOfParsed(q: string)
    requires forall k :: 0 <= k < |Split(q, '&')| ==> '=' in Split(q, '&')[k]
    ensures Query(ParseQuery(q)) == q
  {
    if q != [] {
      EncodeItemsOfParsed(Split(q, '&'));
      JoinSplit(q, '&');
    }
  }

  /** The ordered parameters of the block's test give "p1=v1&p2=v2"; no parameters give "". */
  lemma QueryExamples()
    ensures Query([]) == ""
    ensures Query([("p1", "v1"), ("p2", "v2")]) == "p1=v1&p2=v2"
  {
    var d := [("p1", "v1"), ("p2", "v2")];
    assert EncodePair(d[0]) == "p1=v1";
    assert EncodePair(d[1]) == "p2=v2";
    assert EncodeItems(d[1..]) == ["p2=v2"];
    assert EncodeItems(d) == ["p1=v1", "p2=v2"];
  }
}
