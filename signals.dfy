/**
 * `NioCommand._build_signals`: the decoded response body turned into the
 * signals the block notifies. A dict becomes one signal with the dict as its
 * attributes, a list contributes the signals of each element in order, and
 * any other value is wrapped as `{'resp': data}`.
 */
module Signals {

  /** A value `resp.json()` can produce, or the `resp.text` fallback (a string). */
  datatype Json =
    | JObject(fields: map<string, Json>)
    | JArray(items: seq<Json>)
    | JString(s: string)
    | JNumber(n: int)
    | JBool(b: bool)
    | JNull

  /** One element of the list `_build_signals` returns. */
  datatype Emitted =
    | SignalOf(attributes: map<string, Json>)   // `Signal(data)` for a dict
    | RespDict(resp: Json)                       // the plain dict `{'resp': data}`

  /** What a value that is not a list contributes on its own. */
  function Emit(v: Json): (e: Emitted)
    requires !v.JArray?
    ensures e.SignalOf? <==> v.JObject?
    ensures v.JObject? ==> e.attributes == v.fields
    ensures !v.JObject? ==> e.resp == v
  {
    if v.JObject? then SignalOf(v.fields) else RespDict(v)
  }

  /** The signals `_build_signals(data)` returns. */
  function Flattened(v: Json): seq<Emitted>
    decreases v
  {
    match v
    case JArray(items) => FlattenedAll(items)
    case _ => [Emit(v)]
  }

  /** The list branch: each element flattened, the results concatenated in order. */
  function FlattenedAll(xs: seq<Json>): seq<Emitted>
    decreases xs
  {
    if xs == [] then [] else Flattened(xs[0]) + FlattenedAll(xs[1..])
  }

  /** `_build_signals`, with the list branch's loop of `sigs.extend`. */
  method BuildSignals(data: Json) returns (sigs: seq<Emitted>)
    ensures sigs == Flattened(data)
    decreases data
  {
    sigs := [];
    if data.JObject? {
      sigs := sigs + [SignalOf(data.fields)];
    } else if data.JArray? {
      var items := data.items;
      for i := 0 to |items|
        invariant sigs == FlattenedAll(items[..i])
      {
        var more := BuildSignals(items[i]);
        FlattenedAllSnoc(items[..i], items[i]);
        assert items[..i + 1] == items[..i] + [items[i]];
        sigs := sigs + more;
      }
      assert items[..|items|] == items;
    } else {
      sigs := sigs + [RespDict(data)];
    }
  }

  /** The values that are not lists, in the order a depth-first walk meets them. */
  function Leaves(v: Json): seq<Json>
    decreases v
  {
    match v
    case JArray(items) => LeavesAll(items)
    case _ => [v]
  }

  function LeavesAll(xs: seq<Json>): seq<Json>
    decreases xs
  {
    if xs == [] then [] else Leaves(xs[0]) + LeavesAll(xs[1..])
  }

  /** Flattening the concatenation of two lists concatenates their flattenings. */
  lemma {:induction false} FlattenedAllAppend(xs: seq<Json>, ys: seq<Json>)
    ensures FlattenedAll(xs + ys) == FlattenedAll(xs) + FlattenedAll(ys)
    decreases |xs|
  {
    if xs != [] {
      assert (xs + ys)[0] == xs[0];
      assert (xs + ys)[1..] == xs[1..] + ys;
      FlattenedAllAppend(xs[1..], ys);
    } else {
      assert xs + ys == ys;
    }
  }

  lemma FlattenedAllSnoc(xs: seq<Json>, x: Json)
    ensures FlattenedAll(xs + [x]) == FlattenedAll(xs) + Flattened(x)
  {
    FlattenedAllAppend(xs, [x]);
    assert [x][1..] == [];
  }

  /**
   * Every signal comes from one leaf, in order: the k-th element emitted is
   * the k-th non-list value of the response, a `Signal` for a dict and a
   * `{'resp': ...}` for anything else. So the number of signals is the number
   * of non-list leaves.
   */
  lemma {:induction false} FlattenedIsLeaves(v: Json)
    ensures forall k :: 0 <= k < |Leaves(v)| ==> !Leaves(v)[k].JArray?
    ensures |Flattened(v)| == |Leaves(v)|
    ensures forall k :: 0 <= k < |Leaves(v)| ==> Flattened(v)[k] == Emit(Leaves(v)[k])
    decreases v
  {
    match v
    case JArray(items) => FlattenedAllIsLeaves(items);
    case _ =>
  }

  lemma {:induction false} FlattenedAllIsLeaves(xs: seq<Json>)
    ensures forall k :: 0 <= k < |LeavesAll(xs)| ==> !LeavesAll(xs)[k].JArray?
    ensures |FlattenedAll(xs)| == |LeavesAll(xs)|
    ensures forall k :: 0 <= k < |LeavesAll(xs)| ==> FlattenedAll(xs)[k] == Emit(LeavesAll(xs)[k])
    decreases xs
  {
    if xs != [] {
      FlattenedIsLeaves(xs[0]);
      FlattenedAllIsLeaves(xs[1..]);
      var a: seq<Json>, b: seq<Json> := Leaves(xs[0]), LeavesAll(xs[1..]);
      var fa: seq<Emitted>, fb: seq<Emitted> := Flattened(xs[0]), FlattenedAll(xs[1..]);
      forall k | 0 <= k < |a + b|
        ensures !(a + b)[k].JArray? && (fa + fb)[k] == Emit((a + b)[k])
      {
        if k < |a| {
          assert (a + b)[k] == a[k] && (fa + fb)[k] == fa[k];
        } else {
          assert (a + b)[k] == b[k - |a|] && (fa + fb)[k] == fb[k - |a|];
        }
      }
    }
  }

  /** A dict response gives exactly one signal, carrying the dict. */
  lemma DictGivesOneSignal(fields: map<string, Json>)
    ensures Flattened(JObject(fields)) == [SignalOf(fields)]
  {
  }

  /** A response that is neither a dict nor a list gives one `{'resp': data}`. */
  lemma ScalarGivesResp(v: Json)
    requires !v.JObject? && !v.JArray?
    ensures Flattened(v) == [RespDict(v)]
  {
  }

  /** An empty list gives no signals; a list nested inside a list flattens to the same signals. */
  lemma {:induction false} NestedListsFlatten(xs: seq<Json>, ys: seq<Json>)
    ensures Flattened(JArray([])) == []
    ensures Flattened(JArray(xs + [JArray(ys)])) == Flattened(JArray(xs + ys))
  {
    FlattenedAllSnoc(xs, JArray(ys));
    FlattenedAllAppend(xs, ys);
  }

  /** The response `{'asdf': 'qwer'}` gives one signal whose `asdf` is 'qwer'. */
  lemma ProcessResponseExample()
    ensures var sigs := Flattened(JObject(map["asdf" := JString("qwer")]));
            && |sigs| == 1
            && sigs[0].SignalOf?
            && sigs[0].attributes["asdf"] == JString("qwer")
  {
    DictGivesOneSignal(map["asdf" := JString("qwer")]);
  }
}
