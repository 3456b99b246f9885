/** The two builders of URL query-parameter lists: the API client's
    `QueryParameters` and the back end's `ExtraQueryParams`. Values arrive
    already rendered as strings (`ParamValue::as_value`). */
module QueryParameters {
  import opened Wrappers

  /** The pairs a list becomes after one `push_opt`. */
  function PushedOpt(params: seq<(string, string)>, key: string, val: Option<string>): (r: seq<(string, string)>)
    ensures val.None? ==> r == params
    ensures val.Some? ==> |r| == |params| + 1 && r[..|params|] == params && r[|params|] == (key, val.value)
  {
    match val
    case None => params
    case Some(v) => params + [(key, v)]
  }

  /** A run of `push_opt` calls: the present values in call order, the absent ones skipped. */
  function PushedAll(params: seq<(string, string)>, calls: seq<(string, Option<string>)>): (r: seq<(string, string)>)
    decreases |calls|
  {
    if calls == [] then params
    else PushedAll(PushedOpt(params, calls[0].0, calls[0].1), calls[1..])
  }

  /** The keys of the pairs with a value, in order. */
  function PresentKeys(calls: seq<(string, Option<string>)>): (ks: seq<string>)
    ensures |ks| <= |calls|
  {
    if calls == [] then []
    else (if calls[0].1.Some? then [calls[0].0] else []) + PresentKeys(calls[1..])
  }

  /** Chained calls only add: earlier pairs stay in front, and one pair is added
      per present value, with the keys in call order. */
  lemma {:induction false} PushedAllAppends(params: seq<(string, string)>, calls: seq<(string, Option<string>)>)
    ensures var r := PushedAll(params, calls);
            |r| == |params| + |PresentKeys(calls)| && r[..|params|] == params
            && forall i :: 0 <= i < |PresentKeys(calls)| ==> r[|params| + i].0 == PresentKeys(calls)[i]
    decreases |calls|
  {
    if calls != [] {
      var next := PushedOpt(params, calls[0].0, calls[0].1);
      PushedAllAppends(next, calls[1..]);
      var r := PushedAll(params, calls);
      assert r[..|next|][..|params|] == r[..|params|];
      var first := if calls[0].1.Some? then [calls[0].0] else [];
      assert PresentKeys(calls) == first + PresentKeys(calls[1..]);
      forall i | 0 <= i < |PresentKeys(calls)|
        ensures r[|params| + i].0 == PresentKeys(calls)[i]
      {
        if i >= |first| {
          assert r[|next| + (i - |first|)].0 == PresentKeys(calls[1..])[i - |first|];
        } else {
          assert r[..|next|][|params|] == r[|params|];
        }
      }
    }
  }

  /** `QueryParameters`, the API client's builder. */
  class QueryParameters {
    var params: seq<(string, string)>

    /** `new`: no parameters yet. */
    constructor ()
      ensures params == []
    {
      params := [];
    }

    /** `push`: appends the pair and returns the same builder for chaining. */
    method Push(key: string, val: string) returns (self: QueryParameters)
      modifies this
      ensures params == old(params) + [(key, val)]
      ensures self == this
    {
      params := params + [(key, val)];
      self := this;
    }

    /** `push_opt`: like `push` for a present value, nothing for an absent one. */
    method PushOpt(key: string, val: Option<string>) returns (self: QueryParameters)
      modifies this
      ensures params == PushedOpt(old(params), key, val)
      ensures self == this
    {
      if val.Some? {
        params := params + [(key, val.value)];
      }
      self := this;
    }
  }

  /** The JSON shapes `serialize` produces for a list of pairs. */
  datatype Json = JString(s: string) | JArray(items: seq<Json>)

  /** Reading one serialised pair back: a two-element array of strings. */
  function PairOf(j: Json): (r: Option<(string, string)>)
    ensures r.Some? ==> j == JArray([JString(r.value.0), JString(r.value.1)])
  {
    if j.JArray? && |j.items| == 2 && j.items[0].JString? && j.items[1].JString? then
      assert j.items == [j.items[0], j.items[1]];
      Some((j.items[0].s, j.items[1].s))
    else None
  }

  /** Reading a serialised list of pairs back; anything but an array of
      two-string arrays is rejected. */
  function PairsOf(j: Json): (r: Option<seq<(string, string)>>)
    ensures r.Some? ==> j.JArray? && |r.value| == |j.items|
    decreases if j.JArray? then |j.items| else 0
  {
    if j.JString? then None
    else if j.items == [] then Some([])
    else
      match (PairOf(j.items[0]), PairsOf(JArray(j.items[1..])))
      case (Some(pair), Some(rest)) => Some([pair] + rest)
      case _ => None
  }

  /** The JSON of a list of pairs: an array holding, per pair, a two-element array. */
  function PairsJson(params: seq<(string, string)>): (j: Json)
    ensures j.JArray? && |j.items| == |params|
    ensures forall i :: 0 <= i < |params| ==> j.items[i] == JArray([JString(params[i].0), JString(params[i].1)])
  {
    JArray(seq(|params|, i requires 0 <= i < |params| => JArray([JString(params[i].0), JString(params[i].1)])))
  }

  /** Serialising and reading back gives the pairs in insertion order. */
  lemma {:induction false} PairsJsonRoundTrip(params: seq<(string, string)>)
    ensures PairsOf(PairsJson(params)) == Some(params)
    decreases |params|
  {
    if params != [] {
      PairsJsonRoundTrip(params[1..]);
      assert PairsJson(params).items[1..] == PairsJson(params[1..]).items;
      assert [params[0]] + params[1..] == params;
    }
  }

  /** `ExtraQueryParams`, the back end's builder; it serialises as its list. */
  class ExtraQueryParams {
    var params: seq<(string, string)>

    /** `new` / `Default`: no parameters yet. */
    constructor ()
      ensures params == []
    {
      params := [];
    }

    /** `push_opt`: appends the pair for a present value, nothing otherwise. */
    method PushOpt(key: string, val: Option<string>) returns (self: ExtraQueryParams)
      modifies this
      ensures params == PushedOpt(old(params), key, val)
      ensures self == this
    {
      if val.Some? {
        params := params + [(key, val.value)];
      }
      self := this;
    }

    /** `serialize`: forwards to the list, so the JSON reads back as the pairs. */
    function Serialize(): (j: Json)
      reads this
      ensures PairsOf(j) == Some(params)
    {
      PairsJsonRoundTrip(params);
      PairsJson(params)
    }
  }
}
