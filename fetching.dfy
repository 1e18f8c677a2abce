/**
 * `Fetcher.fetch`: turns an endpoint descriptor and a parameter record into one
 * HTTP request (required-parameter check, query assembly, `?` joining, `:name`
 * substitution, body and header selection), hands it to the HTTP client, and
 * remaps the response (`mapperKey`, `mapper`) or translates the error.
 *
 * The HTTP client and the mapper are functions given to the model; the query is
 * serialised without percent-encoding.
 */
module Fetching {
  import opened Wrappers
  import opened Js

  datatype Scope = Query | Body | Path

  /** An endpoint parameter (`IParameter`); its `type` and `description` play no part in `fetch`. */
  datatype Param = Param(name: string, scope: Scope, required: bool, default: Option<string>)

  /** A thrown error: its `message` and, when present, `response.data.message`. */
  datatype ErrorObj = ErrorObj(message: string, responseMessage: Option<string>)

  /** How the HTTP client's promise, or the mapper, comes out: a value (the response's `data`) or an error. */
  datatype Outcome = Resolves(data: Val) | Throws(error: ErrorObj)

  /** The options object handed to the HTTP client. */
  datatype Request = Request(httpMethod: string, url: string, data: Val, headers: map<string, string>)

  type HttpClient = Request -> Outcome

  /** The parts of an `Endpoint` that `fetch` reads. */
  datatype Endpoint = Endpoint(
    httpMethod: string,
    path: string,
    parameters: seq<Param>,
    mapperKey: Option<string>,
    mapper: Option<Val -> Outcome>)

  /** Why `fetch` rejected: an `Error` with this message, or a `TypeError` raised by the engine. */
  datatype Failure = Thrown(message: string) | TypeFault

  datatype Result<T> = Ok(value: T) | Err(failure: Failure)

  /** The outcome of `fetch`, and the request it sent, if it got as far as the HTTP client. */
  datatype FetchRun = FetchRun(result: Result<Val>, sent: Option<Request>)

  /** One `query.append(key, value)`. */
  datatype Pair = Pair(key: string, value: string)

  // ---------------------------------------------------------------------------
  // Required parameters.

  /** A parameter whose absence `fetch` reports: required and without a default. */
  predicate Mandatory(p: Param)
  {
    p.required && p.default.None?
  }

  predicate IsMissing(p: Param, params: map<string, Val>)
  {
    Mandatory(p) && !Truthy(Field(params, p.name))
  }

  /** `ps[i]` is the first parameter, in declaration order, that is missing. */
  predicate FirstMissing(ps: seq<Param>, params: map<string, Val>, i: nat)
  {
    i < |ps| && IsMissing(ps[i], params) && forall j :: 0 <= j < i ==> !IsMissing(ps[j], params)
  }

  /** The name `fetch` reports as missing: that of the first mandatory parameter with a falsy value. */
  function MissingRequired(ps: seq<Param>, params: map<string, Val>): (r: Option<string>)
    ensures r.None? <==> forall i :: 0 <= i < |ps| ==> !IsMissing(ps[i], params)
    ensures r.Some? ==> exists i: nat :: FirstMissing(ps, params, i) && r.value == ps[i].name
  {
    if ps == [] then None
    else if IsMissing(ps[0], params) then
      assert FirstMissing(ps, params, 0);
      Some(ps[0].name)
    else
      var rest := MissingRequired(ps[1..], params);
      assert forall i :: 1 <= i < |ps| ==> ps[i] == ps[1..][i - 1];
      if rest.Some? then
        var k: nat :| FirstMissing(ps[1..], params, k) && rest.value == ps[1..][k].name;
        assert FirstMissing(ps, params, k + 1);
        rest
      else rest
  }

  lemma FirstMissingUnique(ps: seq<Param>, params: map<string, Val>, i: nat, j: nat)
    requires FirstMissing(ps, params, i) && FirstMissing(ps, params, j)
    ensures i == j
  {
  }

  /** The check of `requiredParams.forEach(...)`: stops at the first missing parameter. */
  method FindMissing(ps: seq<Param>, params: map<string, Val>) returns (missing: Option<string>)
    ensures missing == MissingRequired(ps, params)
  {
    var i := 0;
    while i < |ps|
      invariant 0 <= i <= |ps|
      invariant forall j :: 0 <= j < i ==> !IsMissing(ps[j], params)
    {
      if IsMissing(ps[i], params) {
        assert FirstMissing(ps, params, i);
        var r := MissingRequired(ps, params);
        var k: nat :| FirstMissing(ps, params, k) && r.value == ps[k].name;
        FirstMissingUnique(ps, params, i, k);
        return Some(ps[i].name);
      }
      i := i + 1;
    }
    return None;
  }

  // ---------------------------------------------------------------------------
  // Query assembly.

  /**
   * `v || v == 0`, the guard on query values: it lets through every value but
   * `undefined`, `null` and NaN, so `''` and `false` are sent as well as 0.
   */
  function Admitted(v: Val): (r: bool)
    ensures r <==> !(Nullish(v) || v.NaN?)
  {
    Truthy(v) || FalsyLooseEqualsZero(v)
  }

  /**
   * An array element seen as an object: its keys (`Object.keys`, the indices
   * as decimal strings) are pairwise distinct, and reading `value[key]` back
   * under the key of index `k` gives element `k`.
   */
  function IndexProps(elems: seq<Val>): (props: seq<Prop>)
    ensures |props| == |elems|
    ensures forall j, k :: 0 <= j < k < |props| ==> props[j].key != props[k].key
    ensures forall k :: 0 <= k < |elems| ==> Lookup(props, NatToString(k)) == elems[k]
  {
    var props := seq(|elems|, k requires 0 <= k < |elems| => Prop(NatToString(k), elems[k]));
    assert forall j, k :: 0 <= j < k < |props| ==> props[j].key != props[k].key by {
      forall j, k | 0 <= j < k < |props| ensures props[j].key != props[k].key {
        if props[j].key == props[k].key {
          NatToStringInjective(j, k);
        }
      }
    }
    forall k | 0 <= k < |elems| ensures Lookup(props, NatToString(k)) == elems[k] {
      LookupFirst(props, NatToString(k), k);
    }
    props
  }

  /** One `name[key]=value` pair per key of an object, in key order. */
  function PropPairs(name: string, props: seq<Prop>): seq<Pair>
  {
    seq(|props|, k requires 0 <= k < |props| => Pair(name + "[" + props[k].key + "]", ToStr(props[k].value)))
  }

  /**
   * The pairs of one array element: an object (or array) gives `name[key]`
   * pairs, `null` makes `Object.keys` throw, anything else one `name` pair.
   */
  function ElementPairs(name: string, v: Val): Result<seq<Pair>>
  {
    match v
    case Null => Err(TypeFault)
    case Arr(xs) => Ok(PropPairs(name, IndexProps(xs)))
    case Obj(props) => Ok(PropPairs(name, props))
    case _ => Ok([Pair(name, ToStr(v))])
  }

  /** The pairs of the elements of an array, in order; the first element that throws ends the loop. */
  function ElementsPairs(name: string, elems: seq<Val>): Result<seq<Pair>>
  {
    if elems == [] then Ok([])
    else
      match ElementsPairs(name, elems[..|elems| - 1])
      case Err(f) => Err(f)
      case Ok(init) =>
        match ElementPairs(name, elems[|elems| - 1])
        case Err(f) => Err(f)
        case Ok(last) => Ok(init + last)
  }

  /** A value that is neither `null` nor an object: `typeof` is not `'object'`. */
  predicate Scalar(v: Val)
  {
    !(v.Null? || v.Arr? || v.Obj?)
  }

  /** An array of scalars contributes one `name=value` pair per element, in order. */
  lemma {:induction false} ScalarElementsPairs(name: string, elems: seq<Val>)
    requires forall i :: 0 <= i < |elems| ==> Scalar(elems[i])
    ensures ElementsPairs(name, elems).Ok?
    ensures |ElementsPairs(name, elems).value| == |elems|
    ensures forall i :: 0 <= i < |elems| ==> ElementsPairs(name, elems).value[i] == Pair(name, ToStr(elems[i]))
    decreases |elems|
  {
    if elems != [] {
      var init := elems[..|elems| - 1];
      ScalarElementsPairs(name, init);
      var x := ElementsPairs(name, init).value;
      assert ElementsPairs(name, elems).value == x + [Pair(name, ToStr(elems[|elems| - 1]))];
    }
  }

  /** The pairs one admitted parameter value contributes. */
  function ValuePairs(name: string, v: Val): Result<seq<Pair>>
  {
    match v
    case Arr(xs) => ElementsPairs(name, xs)
    case Obj(props) => Ok(PropPairs(name, props))
    case _ => Ok([Pair(name, ToStr(v))])
  }

  /** The pairs one parameter contributes: none unless it is query-scoped with an admitted value. */
  function ParamPairs(p: Param, params: map<string, Val>): Result<seq<Pair>>
  {
    var v := Field(params, p.name);
    if p.scope == Query && Admitted(v) then ValuePairs(p.name, v) else Ok([])
  }

  /** The query pairs of the parameters, in declaration order; the first throw ends the loop. */
  function QueryPairs(ps: seq<Param>, params: map<string, Val>): Result<seq<Pair>>
  {
    if ps == [] then Ok([])
    else
      match QueryPairs(ps[..|ps| - 1], params)
      case Err(f) => Err(f)
      case Ok(init) =>
        match ParamPairs(ps[|ps| - 1], params)
        case Err(f) => Err(f)
        case Ok(last) => Ok(init + last)
  }

  /** Two steps in sequence: the first failure wins, otherwise the pairs are concatenated. */
  function Then(a: Result<seq<Pair>>, b: Result<seq<Pair>>): Result<seq<Pair>>
  {
    match a
    case Err(f) => Err(f)
    case Ok(x) =>
      match b
      case Err(f) => Err(f)
      case Ok(y) => Ok(x + y)
  }

  /**
   * Parameters contribute in declaration order: the query of `ps1 + ps2` is
   * that of `ps1` followed by that of `ps2`.
   */
  lemma {:induction false} QueryPairsInOrder(ps1: seq<Param>, ps2: seq<Param>, params: map<string, Val>)
    ensures QueryPairs(ps1 + ps2, params) == Then(QueryPairs(ps1, params), QueryPairs(ps2, params))
    decreases |ps2|
  {
    if ps2 == [] {
      assert ps1 + ps2 == ps1;
      if QueryPairs(ps1, params).Ok? {
        assert QueryPairs(ps1, params).value + [] == QueryPairs(ps1, params).value;
      }
    } else {
      var init := ps2[..|ps2| - 1];
      assert (ps1 + ps2)[..|ps1 + ps2| - 1] == ps1 + init;
      assert (ps1 + ps2)[|ps1 + ps2| - 1] == ps2[|ps2| - 1];
      QueryPairsInOrder(ps1, init, params);
      match QueryPairs(ps1, params)
      case Err(_) =>
      case Ok(x) =>
        match QueryPairs(init, params)
        case Err(_) =>
        case Ok(y) =>
          match ParamPairs(ps2[|ps2| - 1], params)
          case Err(_) =>
          case Ok(z) => assert x + y + z == x + (y + z);
    }
  }

  /** `key` is what parameter `name` writes: `name` itself or `name[...]`. */
  predicate KeyOf(name: string, key: string)
  {
    key == name || name + "[" <= key
  }

  /** Every pair of the pairs a parameter contributes has a key of that parameter. */
  predicate KeysOf(name: string, pairs: seq<Pair>)
  {
    forall k :: 0 <= k < |pairs| ==> KeyOf(name, pairs[k].key)
  }

  lemma PropPairsKeys(name: string, props: seq<Prop>)
    ensures KeysOf(name, PropPairs(name, props))
  {
    forall k | 0 <= k < |props|
      ensures KeyOf(name, PropPairs(name, props)[k].key)
    {
      var key := name + "[" + props[k].key + "]";
      assert key[..|name + "["|] == name + "[";
    }
  }

  lemma {:induction false} ElementsPairsKeys(name: string, elems: seq<Val>)
    ensures ElementsPairs(name, elems).Ok? ==> KeysOf(name, ElementsPairs(name, elems).value)
    decreases |elems|
  {
    if elems != [] {
      ElementsPairsKeys(name, elems[..|elems| - 1]);
      var last := elems[|elems| - 1];
      PropPairsKeys(name, if last.Obj? then last.props else if last.Arr? then IndexProps(last.elems) else []);
    }
  }

  /** `key` is written by a query-scoped parameter of `ps` whose value is admitted. */
  predicate FromQueryParam(ps: seq<Param>, params: map<string, Val>, key: string)
  {
    exists i :: 0 <= i < |ps| && ps[i].scope == Query && Admitted(Field(params, ps[i].name)) && KeyOf(ps[i].name, key)
  }

  /**
   * Every query pair is written by a query-scoped parameter whose value is
   * admitted, under that parameter's `name` or as `name[key]`.
   */
  lemma {:induction false} QueryPairsComeFromQueryParams(ps: seq<Param>, params: map<string, Val>)
    ensures QueryPairs(ps, params).Ok? ==>
      forall k :: 0 <= k < |QueryPairs(ps, params).value| ==>
        FromQueryParam(ps, params, QueryPairs(ps, params).value[k].key)
    decreases |ps|
  {
    if ps != [] && QueryPairs(ps, params).Ok? {
      var init := ps[..|ps| - 1];
      var p := ps[|ps| - 1];
      QueryPairsComeFromQueryParams(init, params);
      var v := Field(params, p.name);
      if v.Arr? {
        ElementsPairsKeys(p.name, v.elems);
      } else if v.Obj? {
        PropPairsKeys(p.name, v.props);
      }
      var x: seq<Pair> := QueryPairs(init, params).value;
      var y: seq<Pair> := ParamPairs(p, params).value;
      assert QueryPairs(ps, params).value == x + y;
      forall k | 0 <= k < |x| + |y|
        ensures FromQueryParam(ps, params, (x + y)[k].key)
      {
        if k < |x| {
          assert FromQueryParam(init, params, x[k].key);
          var i :| 0 <= i < |init| && init[i].scope == Query && Admitted(Field(params, init[i].name)) &&
            KeyOf(init[i].name, x[k].key);
          assert ps[i] == init[i];
        } else {
          assert KeyOf(p.name, y[k - |x|].key);
          assert ps[|ps| - 1] == p;
        }
      }
    }
  }

  /** `query.toString()`, without percent-encoding: `key=value` pairs joined by `&`. */
  function Serialize(pairs: seq<Pair>): (s: string)
    ensures s == "" <==> pairs == []
  {
    if pairs == [] then ""
    else
      var first := pairs[0].key + "=" + pairs[0].value;
      assert first[|pairs[0].key|] == '=';
      if |pairs| == 1 then first else first + "&" + Serialize(pairs[1..])
  }

  /** `${path}${q ? '?' + q : ''}` */
  function JoinQuery(path: string, pairs: seq<Pair>): (url: string)
    ensures pairs == [] ==> url == path
    ensures pairs != [] ==> url == path + "?" + Serialize(pairs)
  {
    var q := Serialize(pairs);
    path + (if q != "" then "?" + q else "")
  }

  /**
   * The query-building loop: appends each admitted query parameter's pairs in
   * declaration order, stopping at the first `null` array element.
   */
  method BuildQuery(ps: seq<Param>, params: map<string, Val>) returns (r: Result<seq<Pair>>)
    ensures r == QueryPairs(ps, params)
  {
    var pairs: seq<Pair> := [];
    var i := 0;
    while i < |ps|
      invariant 0 <= i <= |ps|
      invariant QueryPairs(ps[..i], params) == Ok(pairs)
    {
      assert ps[..i + 1][..i] == ps[..i];
      assert ps[..i + 1][i] == ps[i];
      var p := ps[i];
      var v := Field(params, p.name);
      var added: seq<Pair> := [];
      if p.scope == Query && Admitted(v) {
        if v.Arr? {
          var fromArray := AppendElements(p.name, v.elems);
          if fromArray.Err? {
            assert QueryPairs(ps[..i + 1], params).Err?;
            QueryPairsInOrder(ps[..i + 1], ps[i + 1..], params);
            assert ps[..i + 1] + ps[i + 1..] == ps;
            return fromArray;
          }
          added := fromArray.value;
        } else if v.Obj? {
          added := AppendProps(p.name, v.props);
        } else {
          added := [Pair(p.name, ToStr(v))];
        }
      }
      assert ParamPairs(p, params) == Ok(added);
      pairs := pairs + added;
      i := i + 1;
    }
    assert ps[..i] == ps;
    return Ok(pairs);
  }

  /** `Object.keys(obj).forEach((key) => query.append(`${name}[${key}]`, obj[key]))` */
  method AppendProps(name: string, props: seq<Prop>) returns (pairs: seq<Pair>)
    ensures pairs == PropPairs(name, props)
  {
    pairs := [];
    var k := 0;
    while k < |props|
      invariant 0 <= k <= |props|
      invariant pairs == PropPairs(name, props[..k])
    {
      pairs := pairs + [Pair(name + "[" + props[k].key + "]", ToStr(props[k].value))];
      k := k + 1;
    }
    assert props[..k] == props;
  }

  /** `forceArray.forEach(...)` over an array value, stopping if `Object.keys(null)` throws. */
  method AppendElements(name: string, elems: seq<Val>) returns (r: Result<seq<Pair>>)
    ensures r == ElementsPairs(name, elems)
  {
    var pairs: seq<Pair> := [];
    var j := 0;
    while j < |elems|
      invariant 0 <= j <= |elems|
      invariant ElementsPairs(name, elems[..j]) == Ok(pairs)
    {
      assert elems[..j + 1][..j] == elems[..j];
      var e := elems[j];
      if e.Null? {
        ElementsPairsFailed(name, elems, j + 1);
        return Err(TypeFault);
      } else if e.Arr? {
        var fromKeys := AppendProps(name, IndexProps(e.elems));
        pairs := pairs + fromKeys;
      } else if e.Obj? {
        var fromKeys := AppendProps(name, e.props);
        pairs := pairs + fromKeys;
      } else {
        pairs := pairs + [Pair(name, ToStr(e))];
      }
      j := j + 1;
    }
    assert elems[..j] == elems;
    return Ok(pairs);
  }

  /** Once a prefix of the elements throws, so does the whole array. */
  lemma {:induction false} ElementsPairsFailed(name: string, elems: seq<Val>, n: nat)
    requires n <= |elems| && ElementsPairs(name, elems[..n]) == Err(TypeFault)
    ensures ElementsPairs(name, elems) == Err(TypeFault)
    decreases |elems| - n
  {
    if n < |elems| {
      assert elems[..n + 1][..n] == elems[..n];
      ElementsPairsFailed(name, elems, n + 1);
    } else {
      assert elems[..n] == elems;
    }
  }

  // ---------------------------------------------------------------------------
  // Path placeholders.

  /** `pat` occurs in `s` at index `j`. */
  predicate OccursAt(s: string, pat: string, j: nat)
  {
    j + |pat| <= |s| && s[j..j + |pat|] == pat
  }

  /** The first index at which `pat` occurs in `s` (`String.prototype.indexOf`). */
  function IndexOf(s: string, pat: string): (r: Option<nat>)
    ensures r.Some? ==> OccursAt(s, pat, r.value)
    ensures r.Some? ==> forall j: nat :: j < r.value ==> !OccursAt(s, pat, j)
    ensures r.None? ==> forall j: nat :: !OccursAt(s, pat, j)
    decreases |s|
  {
    if |s| < |pat| then None
    else if s[..|pat|] == pat then Some(0)
    else
      var rest := IndexOf(s[1..], pat);
      assert forall j: nat :: 1 <= j ==> (OccursAt(s, pat, j) <==> OccursAt(s[1..], pat, j - 1));
      match rest
      case None => None
      case Some(k) => Some(k + 1)
  }

  /**
   * `s.replace(pat, rep)` with a string pattern: the first occurrence only
   * (`$` patterns in `rep` are not interpreted).
   */
  function ReplaceFirst(s: string, pat: string, rep: string): string
  {
    match IndexOf(s, pat)
    case None => s
    case Some(i) => s[..i] + rep + s[i + |pat|..]
  }

  /**
   * The replacement happens at the first occurrence: when `s` is `a + pat + b`
   * and `pat` does not occur earlier, the result is `a + rep + b`.
   */
  lemma ReplaceFirstAtFirstOccurrence(a: string, pat: string, b: string, rep: string)
    requires forall j: nat :: j < |a| ==> !OccursAt(a + pat + b, pat, j)
    ensures ReplaceFirst(a + pat + b, pat, rep) == a + rep + b
  {
    var s := a + pat + b;
    assert s[|a|..|a| + |pat|] == pat;
    assert OccursAt(s, pat, |a|);
    assert IndexOf(s, pat) == Some(|a|);
    assert s[..|a|] == a && s[|a| + |pat|..] == b;
  }

  /** A placeholder that does not occur leaves the string unchanged. */
  lemma ReplaceFirstAbsent(s: string, pat: string, rep: string)
    requires forall j: nat :: !OccursAt(s, pat, j)
    ensures ReplaceFirst(s, pat, rep) == s
  {
  }

  /**
   * One path parameter: substituted when its value is admitted or when it has a
   * default; in the latter case a missing value is dereferenced (`.toString()`
   * on `undefined`) and throws, so the default is never used.
   */
  function SubstituteOne(url: string, p: Param, params: map<string, Val>): Result<string>
  {
    var v := Field(params, p.name);
    if p.scope == Path && (Admitted(v) || p.default.Some?) then
      if Nullish(v) then Err(TypeFault) else Ok(ReplaceFirst(url, ":" + p.name, ToStr(v)))
    else Ok(url)
  }

  /** The placeholders replaced one path parameter after another, in declaration order. */
  function SubstitutePath(url: string, ps: seq<Param>, params: map<string, Val>): Result<string>
  {
    if ps == [] then Ok(url)
    else
      match SubstitutePath(url, ps[..|ps| - 1], params)
      case Err(f) => Err(f)
      case Ok(u) => SubstituteOne(u, ps[|ps| - 1], params)
  }

  /** The `pathParams.forEach(...)` loop that reassigns `path`. */
  method SubstitutePathParams(url: string, ps: seq<Param>, params: map<string, Val>) returns (r: Result<string>)
    ensures r == SubstitutePath(url, ps, params)
  {
    var path := url;
    var i := 0;
    while i < |ps|
      invariant 0 <= i <= |ps|
      invariant SubstitutePath(url, ps[..i], params) == Ok(path)
    {
      assert ps[..i + 1][..i] == ps[..i];
      var p := ps[i];
      var v := Field(params, p.name);
      if p.scope == Path && (Admitted(v) || p.default.Some?) {
        if Nullish(v) {
          SubstitutePathFailed(url, ps, params, i + 1);
          return Err(TypeFault);
        }
        path := ReplaceFirst(path, ":" + p.name, ToStr(v));
      }
      i := i + 1;
    }
    assert ps[..i] == ps;
    return Ok(path);
  }

  /** Once a prefix of the path parameters throws, so does the whole loop. */
  lemma {:induction false} SubstitutePathFailed(url: string, ps: seq<Param>, params: map<string, Val>, n: nat)
    requires n <= |ps| && SubstitutePath(url, ps[..n], params) == Err(TypeFault)
    ensures SubstitutePath(url, ps, params) == Err(TypeFault)
    decreases |ps| - n
  {
    if n < |ps| {
      assert ps[..n + 1][..n] == ps[..n];
      SubstitutePathFailed(url, ps, params, n + 1);
    } else {
      assert ps[..n] == ps;
    }
  }

  /**
   * Defaults are never substituted: a path parameter with a default but no
   * value makes the substitution throw, whatever the other parameters are.
   */
  lemma DefaultNeverSubstituted(url: string, ps: seq<Param>, params: map<string, Val>, i: nat)
    requires i < |ps| && ps[i].scope == Path && ps[i].default.Some? && Nullish(Field(params, ps[i].name))
    ensures SubstitutePath(url, ps, params) == Err(TypeFault)
  {
    OnlyTypeFaults(url, ps[..i], params);
    assert ps[..i + 1][..i] == ps[..i];
    SubstitutePathFailed(url, ps, params, i + 1);
  }

  lemma {:induction false} OnlyTypeFaults(url: string, ps: seq<Param>, params: map<string, Val>)
    ensures SubstitutePath(url, ps, params).Err? ==> SubstitutePath(url, ps, params) == Err(TypeFault)
    decreases |ps|
  {
    if ps != [] {
      OnlyTypeFaults(url, ps[..|ps| - 1], params);
    }
  }

  // ---------------------------------------------------------------------------
  // The request and the response.

  /** `params['body'] ? params['body'] : null` */
  function RequestBody(params: map<string, Val>): Val
  {
    var b := Field(params, "body");
    if Truthy(b) then b else Null
  }

  const DefaultHeaders: map<string, string> := map["Content-Type" := "application/json"]

  /** `new Error(err.response?.data?.message ?? err.message)` */
  function Translate(e: ErrorObj): Failure
  {
    Thrown(e.responseMessage.GetOr(e.message))
  }

  /**
   * `if (mapperKey) { if (!data[mapperKey]) throw ...; data = data[mapperKey] }`;
   * reading a property of `undefined` or `null` throws.
   */
  function SelectMapperKey(mapperKey: Option<string>, data: Val): Result<Val>
  {
    if mapperKey.None? || mapperKey.value == "" then Ok(data)
    else if Nullish(data) then Err(TypeFault)
    else
      var v := Get(data, mapperKey.value);
      if Truthy(v) then Ok(v) else Err(Thrown("Mapper key not found"))
  }

  /** The `try` block after the request: remapping, or the translated error. */
  function Respond(ep: Endpoint, reply: Outcome): Result<Val>
  {
    match reply
    case Throws(e) => Err(Translate(e))
    case Resolves(data) =>
      match SelectMapperKey(ep.mapperKey, data)
      case Err(f) => Err(f)
      case Ok(d) =>
        match ep.mapper
        case None => Ok(d)
        case Some(m) =>
          match m(d)
          case Resolves(mapped) => Ok(mapped)
          case Throws(e) => Err(Translate(e))
  }

  /** Everything `fetch` does, given the HTTP client. */
  function FetchSpec(client: HttpClient, ep: Endpoint, params: map<string, Val>, headers: Option<map<string, string>>)
    : FetchRun
  {
    match MissingRequired(ep.parameters, params)
    case Some(name) => FetchRun(Err(Thrown("Missing required parameter: " + name)), None)
    case None =>
      match QueryPairs(ep.parameters, params)
      case Err(f) => FetchRun(Err(f), None)
      case Ok(pairs) =>
        match SubstitutePath(ep.path, ep.parameters, params)
        case Err(f) => FetchRun(Err(f), None)
        case Ok(path) =>
          var request := Request(ep.httpMethod, JoinQuery(path, pairs), RequestBody(params), headers.GetOr(DefaultHeaders));
          FetchRun(Respond(ep, client(request)), Some(request))
  }

  /**
   * The first missing mandatory parameter, in declaration order, is reported,
   * and the HTTP client is never called.
   */
  lemma MissingParameterReported(client: HttpClient, ep: Endpoint, params: map<string, Val>,
                                 headers: Option<map<string, string>>, i: nat)
    requires FirstMissing(ep.parameters, params, i)
    ensures FetchSpec(client, ep, params, headers) ==
      FetchRun(Err(Thrown("Missing required parameter: " + ep.parameters[i].name)), None)
  {
    var r := MissingRequired(ep.parameters, params);
    var k: nat :| FirstMissing(ep.parameters, params, k) && r.value == ep.parameters[k].name;
    FirstMissingUnique(ep.parameters, params, i, k);
  }

  /**
   * When validation, query assembly and substitution succeed, exactly one
   * request is sent: to the substituted path followed by the query, with the
   * selected body and headers; the result is the remapped response.
   */
  lemma RequestSent(client: HttpClient, ep: Endpoint, params: map<string, Val>,
                    headers: Option<map<string, string>>, pairs: seq<Pair>, path: string)
    requires MissingRequired(ep.parameters, params).None?
    requires QueryPairs(ep.parameters, params) == Ok(pairs)
    requires SubstitutePath(ep.path, ep.parameters, params) == Ok(path)
    ensures FetchSpec(client, ep, params, headers).sent.Some?
    ensures
      var request := FetchSpec(client, ep, params, headers).sent.value;
      request.httpMethod == ep.httpMethod &&
      request.url == (if pairs == [] then path else path + "?" + Serialize(pairs)) &&
      request.data == (if Truthy(Field(params, "body")) then Field(params, "body") else Null) &&
      request.headers == (if headers.Some? then headers.value else DefaultHeaders)
    ensures
      FetchSpec(client, ep, params, headers).result ==
        Respond(ep, client(FetchSpec(client, ep, params, headers).sent.value))
  {
  }

  /**
   * Response remapping with a `mapperKey` and no mapper: the entry under the
   * key when it is truthy, otherwise "Mapper key not found".
   */
  lemma MapperKeySelects(ep: Endpoint, data: Val, key: string)
    requires ep.mapperKey == Some(key) && key != "" && ep.mapper.None? && !Nullish(data)
    ensures Truthy(Get(data, key)) ==> Respond(ep, Resolves(data)) == Ok(Get(data, key))
    ensures !Truthy(Get(data, key)) ==> Respond(ep, Resolves(data)) == Err(Thrown("Mapper key not found"))
  {
  }

  /** A client error is rethrown with `response.data.message` if present, else its own message. */
  lemma ClientErrorTranslated(ep: Endpoint, e: ErrorObj)
    ensures e.responseMessage.Some? ==> Respond(ep, Throws(e)) == Err(Thrown(e.responseMessage.value))
    ensures e.responseMessage.None? ==> Respond(ep, Throws(e)) == Err(Thrown(e.message))
  {
  }

  // Scenarios of the fetcher's unit tests, over the endpoint `/test/:id`.

  const IdParam := Param("id", Path, true, None)

  function TestEndpoint(extra: seq<Param>, mapperKey: Option<string>): Endpoint
  {
    Endpoint("GET", "/test/:id", [IdParam] + extra, mapperKey, None)
  }

  /** Unit test: with no parameters at all, `id` is reported missing. */
  lemma ScenarioMissingId(client: HttpClient)
    ensures FetchSpec(client, TestEndpoint([Param("optional", Query, false, None)], None), map[], None) ==
      FetchRun(Err(Thrown("Missing required parameter: id")), None)
  {
    var ep := TestEndpoint([Param("optional", Query, false, None)], None);
    assert IsMissing(ep.parameters[0], map[]);
    assert FirstMissing(ep.parameters, map[], 0);
    MissingParameterReported(client, ep, map[], None, 0);
    assert "Missing required parameter: " + "id" == "Missing required parameter: id";
  }

  const FilterParam := Param("filter", Query, false, None)

  function UrlTestParams(): map<string, Val>
  {
    map["id" := Str("123"), "filter" := Str("active")]
  }

  /** Proof step of `ScenarioUrl`: only `filter` contributes a query pair. */
  lemma UrlTestQuery()
    ensures QueryPairs([IdParam, FilterParam], UrlTestParams()) == Ok([Pair("filter", "active")])
  {
    var params := UrlTestParams();
    var none: seq<Pair> := [];
    assert QueryPairs([IdParam], params) == Ok(none) by {
      var one := [IdParam];
      assert one[..|one| - 1] == [];
      assert QueryPairs([], params) == Ok(none);
      assert ParamPairs(IdParam, params) == Ok(none);
      assert none + none == none;
    }
    var two := [IdParam, FilterParam];
    assert two[..|two| - 1] == [IdParam];
    assert ParamPairs(FilterParam, params) == Ok([Pair("filter", "active")]);
    assert none + [Pair("filter", "active")] == [Pair("filter", "active")];
  }

  /**
   * Proof step of `ScenarioUrl`: the first `:id` sits right after `/test/`.
   * The literal comes in as a parameter so that the solver does not unfold it.
   */
  lemma UrlTestReplace(template: string)
    requires template == "/test/"
    ensures ReplaceFirst(template + ":id", ":id", "123") == template + "123"
  {
    var s := template + ":id" + "";
    forall j: nat | j < |template| ensures !OccursAt(s, ":id", j) {
      assert s[j] == template[j] && template[j] != ':';
      if j + 3 <= |s| {
        assert s[j..j + 3][0] == s[j];
      }
    }
    ReplaceFirstAtFirstOccurrence(template, ":id", "", "123");
    assert s == template + ":id" && template + "123" + "" == template + "123";
  }

  /** Proof step of `ScenarioUrl`: on any path, only `id` is substituted, by `123`. */
  lemma UrlTestSubstituteAny(path: string)
    ensures SubstitutePath(path, [IdParam, FilterParam], UrlTestParams()) == Ok(ReplaceFirst(path, ":id", "123"))
  {
    var params := UrlTestParams();
    assert Field(params, "id") == Str("123") && ToStr(Str("123")) == "123";
    assert ":" + IdParam.name == ":id";
    assert SubstituteOne(path, IdParam, params) == Ok(ReplaceFirst(path, ":id", "123"));
    assert SubstitutePath(path, [IdParam], params) == Ok(ReplaceFirst(path, ":id", "123")) by {
      assert [IdParam][..0] == [];
    }
    var two := [IdParam, FilterParam];
    assert two[..|two| - 1] == [IdParam];
  }

  /** Proof step of `ScenarioUrl`: no mandatory parameter is missing. */
  lemma UrlTestNothingMissing()
    ensures MissingRequired([IdParam, FilterParam], UrlTestParams()).None?
  {
    var ps := [IdParam, FilterParam];
    assert !IsMissing(ps[0], UrlTestParams()) && !IsMissing(ps[1], UrlTestParams());
  }

  /** Proof step of `ScenarioUrl`: the endpoint's path, and the expected URL, spelled out. */
  lemma UrlTestJoin(template: string)
    requires template == "/test/"
    ensures template + ":id" == "/test/:id"
    ensures template + "123" + "?" + Serialize([Pair("filter", "active")]) == "/test/123?filter=active"
  {
  }

  /** The request `fetch` sends once its three steps have succeeded, without headers. */
  lemma SentWithDefaultHeaders(client: HttpClient, ep: Endpoint, params: map<string, Val>, pairs: seq<Pair>,
                               path: string, url: string, body: Val)
    requires MissingRequired(ep.parameters, params).None?
    requires QueryPairs(ep.parameters, params) == Ok(pairs)
    requires SubstitutePath(ep.path, ep.parameters, params) == Ok(path)
    requires pairs != [] && url == path + "?" + Serialize(pairs)
    requires RequestBody(params) == body
    ensures FetchSpec(client, ep, params, None).sent == Some(Request(ep.httpMethod, url, body, DefaultHeaders))
  {
    RequestSent(client, ep, params, None, pairs, path);
  }

  /** Unit test: `{id: '123', filter: 'active'}` is sent to `/test/123?filter=active`. */
  lemma ScenarioUrl(client: HttpClient, ep: Endpoint, params: map<string, Val>)
    requires ep == TestEndpoint([FilterParam], None) && params == UrlTestParams()
    ensures FetchSpec(client, ep, params, None).sent ==
      Some(Request("GET", "/test/123?filter=active", Null, DefaultHeaders))
  {
    var template := "/test/";
    var pairs := [Pair("filter", "active")];
    assert ep.parameters == [IdParam, FilterParam];
    UrlTestNothingMissing();
    UrlTestQuery();
    UrlTestJoin(template);
    UrlTestReplace(template);
    UrlTestSubstituteAny(template + ":id");
    assert RequestBody(params) == Null;
    SentWithDefaultHeaders(client, ep, params, pairs, template + "123", "/test/123?filter=active", Null);
  }

  class Fetcher {
    var httpClient: HttpClient

    /** The private constructor installs the default client. */
    constructor (defaultClient: HttpClient)
      ensures httpClient == defaultClient
    {
      httpClient := defaultClient;
    }

    method SetHttpClient(httpClient: HttpClient)
      modifies this
      ensures this.httpClient == httpClient
    {
      this.httpClient := httpClient;
    }

    method GetHttpClient() returns (c: HttpClient)
      ensures c == httpClient
    {
      c := httpClient;
    }

    /** `fetch`: builds and sends the request, then remaps the response. */
    method Fetch(ep: Endpoint, params: map<string, Val>, headers: Option<map<string, string>>) returns (run: FetchRun)
      ensures run == FetchSpec(httpClient, ep, params, headers)
    {
      var missing := FindMissing(ep.parameters, params);
      if missing.Some? {
        return FetchRun(Err(Thrown("Missing required parameter: " + missing.value)), None);
      }
      var query := BuildQuery(ep.parameters, params);
      if query.Err? {
        return FetchRun(Err(query.failure), None);
      }
      var path := SubstitutePathParams(ep.path, ep.parameters, params);
      if path.Err? {
        return FetchRun(Err(path.failure), None);
      }
      var request := Request(ep.httpMethod, JoinQuery(path.value, query.value), RequestBody(params),
                             headers.GetOr(DefaultHeaders));
      var reply := httpClient(request);
      if reply.Throws? {
        return FetchRun(Err(Translate(reply.error)), Some(request));
      }
      var data := reply.data;
      if ep.mapperKey.Some? && ep.mapperKey.value != "" {
        if Nullish(data) {
          return FetchRun(Err(TypeFault), Some(request));
        }
        if !Truthy(Get(data, ep.mapperKey.value)) {
          return FetchRun(Err(Thrown("Mapper key not found")), Some(request));
        }
        data := Get(data, ep.mapperKey.value);
      }
      if ep.mapper.Some? {
        var mapped := ep.mapper.value(data);
        if mapped.Throws? {
          return FetchRun(Err(Translate(mapped.error)), Some(request));
        }
        data := mapped.data;
      }
      return FetchRun(Ok(data), Some(request));
    }
  }

  /** The static `Fetcher.instance` slot. */
  class FetcherInstance {
    var instance: Fetcher?

    constructor ()
      ensures instance == null
    {
      instance := null;
    }

    /** `getInstance`: creates the fetcher on first use, then always returns that one. */
    method GetInstance(defaultClient: HttpClient) returns (f: Fetcher)
      modifies this
      ensures old(instance) != null ==> f == old(instance)
      ensures old(instance) == null ==> fresh(f) && f.httpClient == defaultClient
      ensures instance == f
    {
      if instance == null {
        instance := new Fetcher(defaultClient);
      }
      f := instance;
    }
  }
}
