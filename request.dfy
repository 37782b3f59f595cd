/** The deterministic part of the client's HTTP request helper
    (lib/helpers/request.js): the capability and scheme checks, the merge of
    hook-supplied, per-call and default options, the query-string merge, the
    header clean-up, the body and its headers, and the DPoP nonce cache
    written after the exchange. The exchange itself is not modelled: a request
    ends with the values that would be handed to `fetch`, and the response of
    the exchange (if there was one) is a parameter of the nonce write. */
module Request {
  import opened Js
  import opened Errors

  /* ---------- Parsed URLs and their query ---------- */

  /** One `name=value` pair of a query string, in order. */
  type Param = (string, string)

  /** What the helper reads of a parsed `URL`: its scheme (with the colon),
      origin, path and query pairs. */
  datatype Url = Url(protocol: string, origin: string, pathname: string, query: seq<Param>)

  /** The pairs whose name is not in `names`, in their order. */
  function Without(q: seq<Param>, names: set<string>): (r: seq<Param>)
    ensures |r| <= |q|
    ensures forall i :: 0 <= i < |r| ==> r[i].0 !in names
  {
    if q == [] then []
    else if q[0].0 in names then Without(q[1..], names)
    else [q[0]] + Without(q[1..], names)
  }

  /** The values of the pairs named `name`, in their order. */
  function Occurrences(q: seq<Param>, name: string): seq<string>
  {
    if q == [] then []
    else if q[0].0 == name then [q[0].1] + Occurrences(q[1..], name)
    else Occurrences(q[1..], name)
  }

  /** `searchParams.delete(name)` */
  function Delete(q: seq<Param>, name: string): seq<Param>
  {
    Without(q, {name})
  }

  /** `searchParams.set(name, value)`: the first pair named `name` takes the
      value and the others are removed; with none, the pair is appended. */
  function SetParam(q: seq<Param>, name: string, value: string): seq<Param>
  {
    if q == [] then [(name, value)]
    else if q[0].0 == name then [(name, value)] + Delete(q[1..], name)
    else [q[0]] + SetParam(q[1..], name, value)
  }

  lemma {:induction false} WithoutDelete(q: seq<Param>, name: string, names: set<string>)
    requires name in names
    ensures Without(Delete(q, name), names) == Without(q, names)
  {
    if q != [] {
      WithoutDelete(q[1..], name, names);
    }
  }

  lemma {:induction false} OccurrencesDelete(q: seq<Param>, name: string, other: string)
    ensures Occurrences(Delete(q, name), other) == if other == name then [] else Occurrences(q, other)
  {
    if q != [] {
      OccurrencesDelete(q[1..], name, other);
    }
  }

  /** After `set`, the name has exactly the one value; other names keep
      theirs and nothing else changes once the name is set aside. */
  lemma {:induction false} SetParamEffect(q: seq<Param>, name: string, value: string, names: set<string>, other: string)
    requires name in names
    ensures Occurrences(SetParam(q, name, value), name) == [value]
    ensures other != name ==> Occurrences(SetParam(q, name, value), other) == Occurrences(q, other)
    ensures Without(SetParam(q, name, value), names) == Without(q, names)
  {
    if q == [] {
    } else if q[0].0 == name {
      OccurrencesDelete(q[1..], name, name);
      OccurrencesDelete(q[1..], name, other);
      WithoutDelete(q[1..], name, names);
    } else {
      SetParamEffect(q[1..], name, value, names, other);
    }
  }

  /** One `[key, value]` of `Object.entries(searchParams)`. */
  type Entry = (string, JsValue)

  /** The names of a list of entries. */
  function Names(e: seq<Entry>): set<string>
  {
    set j | 0 <= j < |e| :: e[j].0
  }

  /** Entries with no name twice, as `Object.entries` yields them. */
  predicate DistinctNames(e: seq<Entry>)
  {
    forall i, j :: 0 <= i < j < |e| ==> e[i].0 != e[j].0
  }

  /** `Object.entries(o)`: every property once, with its value. The order is
      the object's own property order, which a map does not record. */
  ghost predicate IsEntries(e: seq<Entry>, o: map<string, JsValue>)
  {
    && DistinctNames(e)
    && Names(e) == o.Keys
    && forall j :: 0 <= j < |e| ==> o[e[j].0] == e[j].1
  }

  /** The query pairs the entries become, values converted to strings. */
  function Pairs(e: seq<Entry>): (r: seq<Param>)
    ensures |r| == |e|
    ensures forall j :: 0 <= j < |e| ==> r[j] == (e[j].0, ToText(e[j].1))
  {
    if e == [] then [] else [(e[0].0, ToText(e[0].1))] + Pairs(e[1..])
  }

  /** The query after merging `params` into `q0`: the pairs of the other
      names keep their order, and the supplied parameters follow them in
      the order `Object.entries` lists them. */
  ghost predicate MergedQuery(q0: seq<Param>, params: map<string, JsValue>, q: seq<Param>)
  {
    exists e :: IsEntries(e, params) && q == Without(q0, params.Keys) + Pairs(e)
  }

  lemma {:induction false} WithoutConcat(a: seq<Param>, b: seq<Param>, names: set<string>)
    ensures Without(a + b, names) == Without(a, names) + Without(b, names)
  {
    if a == [] {
      assert a + b == b;
    } else {
      assert (a + b)[1..] == a[1..] + b;
      WithoutConcat(a[1..], b, names);
    }
  }

  lemma {:induction false} WithoutWithout(q: seq<Param>, a: set<string>, b: set<string>)
    ensures Without(Without(q, a), b) == Without(q, a + b)
  {
    if q != [] {
      WithoutWithout(q[1..], a, b);
    }
  }

  lemma {:induction false} WithoutNothing(q: seq<Param>, names: set<string>)
    requires forall i :: 0 <= i < |q| ==> q[i].0 !in names
    ensures Without(q, names) == q
  {
    if q != [] {
      WithoutNothing(q[1..], names);
    }
  }

  /** `set` of a name that is absent appends the pair. */
  lemma {:induction false} SetParamAbsent(q: seq<Param>, name: string, value: string)
    requires forall i :: 0 <= i < |q| ==> q[i].0 != name
    ensures SetParam(q, name, value) == q + [(name, value)]
  {
    if q != [] {
      SetParamAbsent(q[1..], name, value);
    }
  }

  /** The slices of a list of entries grow one entry at a time. */
  lemma EntriesPrefix(entries: seq<Entry>, i: nat)
    requires DistinctNames(entries) && i < |entries|
    ensures Names(entries[..i + 1]) == Names(entries[..i]) + {entries[i].0}
    ensures entries[i].0 !in Names(entries[..i])
    ensures Pairs(entries[..i + 1]) == Pairs(entries[..i]) + [(entries[i].0, ToText(entries[i].1))]
  {
    assert forall j :: 0 <= j < i + 1 ==> entries[..i + 1][j] == entries[j];
  }

  /** One turn of the loop: delete the name, then set it, which appends the
      entry after the pairs already merged. */
  lemma MergeStep(query: seq<Param>, entries: seq<Entry>, i: nat)
    requires DistinctNames(entries) && i < |entries|
    ensures var q := Without(query, Names(entries[..i])) + Pairs(entries[..i]);
            var (k, v) := entries[i];
            SetParam(Delete(q, k), k, ToText(v)) == Without(query, Names(entries[..i + 1])) + Pairs(entries[..i + 1])
  {
    var (k, v) := entries[i];
    var before := Without(query, Names(entries[..i]));
    var merged := Pairs(entries[..i]);
    EntriesPrefix(entries, i);
    WithoutConcat(before, merged, {k});
    WithoutWithout(query, Names(entries[..i]), {k});
    assert forall j :: 0 <= j < |merged| ==> merged[j].0 in Names(entries[..i]);
    WithoutNothing(merged, {k});
    var deleted := Without(query, Names(entries[..i + 1])) + merged;
    assert Delete(before + merged, k) == deleted;
    SetParamAbsent(deleted, k, ToText(v));
  }

  /** The `searchParams` loop: for each entry in order, delete, then set. */
  method MergeSearchParams(query: seq<Param>, entries: seq<Entry>) returns (q: seq<Param>)
    requires DistinctNames(entries)
    ensures q == Without(query, Names(entries)) + Pairs(entries)
  {
    q := query;
    WithoutNothing(query, {});
    assert Names(entries[..0]) == {};
    for i := 0 to |entries|
      invariant q == Without(query, Names(entries[..i])) + Pairs(entries[..i])
    {
      var (k, v) := entries[i];
      MergeStep(query, entries, i);
      q := Delete(q, k);
      q := SetParam(q, k, ToText(v));
    }
    assert entries[..|entries|] == entries;
  }

  /** One more entry, under a new name, keeps the names distinct. */
  lemma Append(e: seq<Entry>, x: Entry)
    requires DistinctNames(e) && x.0 !in Names(e)
    ensures Names(e + [x]) == Names(e) + {x.0}
    ensures DistinctNames(e + [x])
    ensures forall j :: 0 <= j < |e| ==> (e + [x])[j] == e[j]
  {
    var e' := e + [x];
    assert forall j :: 0 <= j < |e| ==> e'[j] == e[j];
    assert e'[|e|] == x;
  }

  /** `Object.entries` of an object, in one of its orders. */
  method Entries(o: map<string, JsValue>) returns (e: seq<Entry>)
    ensures IsEntries(e, o)
  {
    e := [];
    var todo := o.Keys;
    while todo != {}
      invariant EntriesSoFar(e, o, todo)
      decreases |todo|
    {
      var k :| k in todo;
      EntriesStep(e, o, todo, k);
      e := e + [(k, o[k])];
      todo := todo - {k};
    }
  }

  /** The loop state of `Entries`: the listed names and the names to go
      split the properties, and each listed entry holds its property. */
  ghost predicate EntriesSoFar(e: seq<Entry>, o: map<string, JsValue>, todo: set<string>)
  {
    && todo <= o.Keys
    && DistinctNames(e)
    && Names(e) == o.Keys - todo
    && forall j :: 0 <= j < |e| ==> e[j].0 in o && o[e[j].0] == e[j].1
  }

  lemma EntriesStep(e: seq<Entry>, o: map<string, JsValue>, todo: set<string>, k: string)
    requires EntriesSoFar(e, o, todo) && k in todo
    ensures EntriesSoFar(e + [(k, o[k])], o, todo - {k})
  {
    Append(e, (k, o[k]));
  }

  lemma {:induction false} OccurrencesConcat(a: seq<Param>, b: seq<Param>, name: string)
    ensures Occurrences(a + b, name) == Occurrences(a, name) + Occurrences(b, name)
  {
    if a == [] {
      assert a + b == b;
    } else {
      assert (a + b)[1..] == a[1..] + b;
      OccurrencesConcat(a[1..], b, name);
    }
  }

  lemma {:induction false} OccurrencesWithout(q: seq<Param>, names: set<string>, name: string)
    ensures Occurrences(Without(q, names), name) == if name in names then [] else Occurrences(q, name)
  {
    if q != [] {
      OccurrencesWithout(q[1..], names, name);
    }
  }

  lemma {:induction false} OccurrencesPairs(e: seq<Entry>, j: nat)
    requires DistinctNames(e) && j < |e|
    ensures Occurrences(Pairs(e), e[j].0) == [ToText(e[j].1)]
  {
    var p := Pairs(e);
    assert p[1..] == Pairs(e[1..]);
    if j == 0 {
      OccurrencesAbsent(e[1..], e[0].0);
    } else {
      OccurrencesPairs(e[1..], j - 1);
    }
  }

  lemma {:induction false} OccurrencesAbsent(e: seq<Entry>, name: string)
    requires forall j :: 0 <= j < |e| ==> e[j].0 != name
    ensures Occurrences(Pairs(e), name) == []
  {
    if e != [] {
      assert Pairs(e)[1..] == Pairs(e[1..]);
      OccurrencesAbsent(e[1..], name);
    }
  }

  /** A merge of entries in some order is a `MergedQuery`. */
  lemma MergedQueryOf(q0: seq<Param>, params: map<string, JsValue>, e: seq<Entry>, q: seq<Param>)
    requires IsEntries(e, params) && q == Without(q0, Names(e)) + Pairs(e)
    ensures MergedQuery(q0, params, q)
  {
  }

  /** Without parameters the query is left as it was. */
  lemma MergedQueryNone(q0: seq<Param>)
    ensures MergedQuery(q0, map[], q0)
  {
    var e: seq<Entry> := [];
    WithoutNothing(q0, {});
    assert Names(e) == {};
    assert q0 == Without(q0, {}) + Pairs(e);
  }

  /** After the merge each supplied name has exactly one pair, carrying the
      supplied value as a string, and every other name keeps its pairs. */
  lemma MergedQueryOccurrences(q0: seq<Param>, params: map<string, JsValue>, q: seq<Param>, k: string)
    requires MergedQuery(q0, params, q)
    ensures k in params ==> Occurrences(q, k) == [ToText(params[k])]
    ensures k !in params ==> Occurrences(q, k) == Occurrences(q0, k)
  {
    var e: seq<Entry> :| IsEntries(e, params) && q == Without(q0, params.Keys) + Pairs(e);
    OccurrencesConcat(Without(q0, params.Keys), Pairs(e), k);
    OccurrencesWithout(q0, params.Keys, k);
    if k in params {
      assert k in Names(e);
      var j: nat :| j < |e| && e[j].0 == k;
      OccurrencesPairs(e, j);
    } else {
      assert forall j :: 0 <= j < |e| ==> e[j].0 in Names(e);
      OccurrencesAbsent(e, k);
    }
  }

  /** Setting the supplied names aside, the merged query is the old one. */
  lemma MergedQueryKeepsOthers(q0: seq<Param>, params: map<string, JsValue>, q: seq<Param>)
    requires MergedQuery(q0, params, q)
    ensures Without(q, params.Keys) == Without(q0, params.Keys)
  {
    var e: seq<Entry> :| IsEntries(e, params) && q == Without(q0, params.Keys) + Pairs(e);
    WithoutConcat(Without(q0, params.Keys), Pairs(e), params.Keys);
    WithoutWithout(q0, params.Keys, params.Keys);
    assert params.Keys + params.Keys == params.Keys;
    assert forall j :: 0 <= j < |Pairs(e)| ==> Pairs(e)[j].0 in Names(e);
    WithoutEmpty(Pairs(e), params.Keys);
    assert Without(q0, params.Keys) + [] == Without(q0, params.Keys);
  }

  lemma {:induction false} WithoutEmpty(q: seq<Param>, names: set<string>)
    requires forall i :: 0 <= i < |q| ==> q[i].0 in names
    ensures Without(q, names) == []
  {
    if q != [] {
      WithoutEmpty(q[1..], names);
    }
  }

  /* ---------- Options ---------- */

  /** The option names a hook may supply. */
  const Allowed: seq<string> := ["agent", "ca", "cert", "crl", "headers", "key", "lookup", "passphrase", "pfx", "timeout"]

  /** `pick(object, ...paths)`: the listed properties that are not undefined. */
  function Pick(o: map<string, JsValue>, paths: seq<string>): (r: map<string, JsValue>)
    ensures forall k :: k in r ==> k in o && k in paths && r[k] == o[k] && r[k] != Undefined
    ensures forall k :: k in paths && Field(o, k) != Undefined ==> k in r
  {
    map k | k in o && k in paths && o[k] != Undefined :: o[k]
  }

  /** `defaults(true, target, source)`: fills the properties the target lacks
      (or holds as undefined) from the source, merging nested objects. */
  function Fill(t: JsValue, s: JsValue): (r: JsValue)
    ensures t.Obj? ==> r.Obj?
    ensures !(t.Obj? && s.Obj?) ==> r == t
    decreases t
  {
    if t.Obj? && s.Obj? then
      Obj(map k | k in t.fields.Keys + (set k | k in s.fields && s.fields[k] != Undefined) ::
        if k in t.fields && t.fields[k] != Undefined then
          if k in s.fields && t.fields[k].Obj? && s.fields[k].Obj? then Fill(t.fields[k], s.fields[k])
          else t.fields[k]
        else if k in s.fields && s.fields[k] != Undefined then s.fields[k]
        else t.fields[k])
    else t
  }

  /** `defaultsDeep(target, ...sources)`: the sources fill in, in order. */
  function DefaultsAll(t: JsValue, sources: seq<map<string, JsValue>>): (r: JsValue)
    ensures t.Obj? ==> r.Obj?
    decreases |sources|
  {
    if sources == [] then t else DefaultsAll(Fill(t, Obj(sources[0])), sources[1..])
  }

  /** `defaultsDeep({}, ...sources)` */
  function DefaultsDeep(sources: seq<map<string, JsValue>>): map<string, JsValue>
  {
    DefaultsAll(Obj(map[]), sources).fields
  }

  /** The first defined value of property `k` among the targets and the sources. */
  function FirstDefined(values: seq<JsValue>, k: string): JsValue
  {
    if values == [] then Undefined
    else if Get(values[0], k) != Undefined then Get(values[0], k)
    else FirstDefined(values[1..], k)
  }

  /** One filling step decides property `k` by the two values at `k` alone. */
  lemma FillField(t: JsValue, s: JsValue, k: string)
    requires t.Obj? && s.Obj?
    ensures Get(Fill(t, s), k)
            == if Get(t, k) != Undefined then
                 if Get(t, k).Obj? && Get(s, k).Obj? then Fill(Get(t, k), Get(s, k)) else Get(t, k)
               else Get(s, k)
  {
  }

  /** Where no source holds a nested object at `k`, the merged value of `k`
      is the first defined one: earlier sources take precedence. */
  lemma {:induction false} DefaultsAllPrecedence(t: JsValue, sources: seq<map<string, JsValue>>, k: string)
    requires t.Obj? && !Get(t, k).Obj?
    requires forall i :: 0 <= i < |sources| ==> !Field(sources[i], k).Obj?
    ensures Get(DefaultsAll(t, sources), k) == FirstDefined([t] + seq(|sources|, i requires 0 <= i < |sources| => Obj(sources[i])), k)
    decreases |sources|
  {
    var objs := seq(|sources|, i requires 0 <= i < |sources| => Obj(sources[i]));
    if sources != [] {
      var t' := Fill(t, Obj(sources[0]));
      FillField(t, Obj(sources[0]), k);
      DefaultsAllPrecedence(t', sources[1..], k);
      var rest := seq(|sources[1..]|, i requires 0 <= i < |sources[1..]| => Obj(sources[1..][i]));
      assert objs == [Obj(sources[0])] + rest;
      assert FirstDefined([t] + objs, k) == FirstDefined([t'] + rest, k) by {
        assert ([t] + objs)[1..] == objs;
        assert objs[1..] == rest;
        assert ([t'] + rest)[1..] == rest;
      }
    }
  }

  /** Property `k` of a merge depends only on property `k` of its inputs. */
  lemma {:induction false} DefaultsAllLocal(t1: JsValue, t2: JsValue, sources: seq<map<string, JsValue>>, k: string)
    requires t1.Obj? && t2.Obj? && Get(t1, k) == Get(t2, k)
    ensures Get(DefaultsAll(t1, sources), k) == Get(DefaultsAll(t2, sources), k)
    decreases |sources|
  {
    if sources != [] {
      FillField(t1, Obj(sources[0]), k);
      FillField(t2, Obj(sources[0]), k);
      DefaultsAllLocal(Fill(t1, Obj(sources[0])), Fill(t2, Obj(sources[0])), sources[1..], k);
    }
  }

  /** A source without property `k` leaves `k` of the merge unchanged. */
  lemma DefaultsDeepSkip(u: map<string, JsValue>, sources: seq<map<string, JsValue>>, k: string)
    requires k !in u
    ensures Field(DefaultsDeep([u] + sources), k) == Field(DefaultsDeep(sources), k)
  {
    assert ([u] + sources)[1..] == sources;
    FillField(Obj(map[]), Obj(u), k);
    DefaultsAllLocal(Fill(Obj(map[]), Obj(u)), Obj(map[]), sources, k);
  }

  /** A source leaves every property it lacks as the other sources make it. */
  lemma DefaultsDeepSkipAll(u: map<string, JsValue>, sources: seq<map<string, JsValue>>)
    ensures forall k :: k !in u ==> Field(DefaultsDeep([u] + sources), k) == Field(DefaultsDeep(sources), k)
  {
    forall k | k !in u
      ensures Field(DefaultsDeep([u] + sources), k) == Field(DefaultsDeep(sources), k)
    {
      DefaultsDeepSkip(u, sources, k);
    }
  }

  /** The options a request hook sees and returns. */
  type Hook = (Url, map<string, JsValue>) -> map<string, JsValue>

  /** The options in effect for a request: the hook's allowed options first,
      then the call's options, then the client's defaults. */
  function MergedOptions(defaults: map<string, JsValue>, options: map<string, JsValue>, hook: Option<Hook>, url: Url): (r: map<string, JsValue>)
    // a hook cannot set an option outside the allowed list: such an option is
    // the call's merged over the defaults, whatever the hook returns
    ensures forall k :: k !in Allowed ==> Field(r, k) == Field(DefaultsDeep([options, defaults]), k)
    // without a hook every option is the call's merged over the defaults
    ensures hook.None? ==> forall k :: Field(r, k) == Field(DefaultsDeep([options, defaults]), k)
  {
    var user := if hook.Some? then Pick(hook.value(url, DefaultsDeep([options, defaults])), Allowed) else map[];
    DefaultsDeepSkipAll(user, [options, defaults]);
    assert [user] + [options, defaults] == [user, options, defaults];
    DefaultsDeep([user, options, defaults])
  }

  /** For an option that nobody gives as a nested object, a hook's allowed,
      defined value wins over the call's, and the call's over the default. */
  lemma MergedPrecedence(defaults: map<string, JsValue>, options: map<string, JsValue>, user: map<string, JsValue>, k: string)
    requires !Field(user, k).Obj? && !Field(options, k).Obj? && !Field(defaults, k).Obj?
    ensures Field(DefaultsDeep([user, options, defaults]), k)
            == if Field(user, k) != Undefined then Field(user, k)
               else if Field(options, k) != Undefined then Field(options, k)
               else Field(defaults, k)
  {
    var sources := [user, options, defaults];
    assert forall i :: 0 <= i < |sources| ==> !Field(sources[i], k).Obj?;
    DefaultsAllPrecedence(Obj(map[]), sources, k);
    var objs := seq(|sources|, i requires 0 <= i < |sources| => Obj(sources[i]));
    assert objs == [Obj(user), Obj(options), Obj(defaults)];
    var vs := [Obj(map[])] + objs;
    assert FirstDefined(vs, k) == FirstDefined(objs, k) by {
      assert vs[1..] == objs;
    }
    assert FirstDefined(objs, k)
           == if Field(user, k) != Undefined then Field(user, k) else FirstDefined([Obj(options), Obj(defaults)], k) by {
      assert objs[1..] == [Obj(options), Obj(defaults)];
    }
    assert FirstDefined([Obj(options), Obj(defaults)], k)
           == if Field(options, k) != Undefined then Field(options, k) else FirstDefined([Obj(defaults)], k) by {
      assert [Obj(options), Obj(defaults)][1..] == [Obj(defaults)];
    }
    assert FirstDefined([Obj(defaults)], k) == Field(defaults, k) by {
      assert [Obj(defaults)][1..] == [];
    }
  }

  /* ---------- Headers and body ---------- */

  /** The headers that remain when the undefined ones are dropped. */
  function DefinedHeaders(h: map<string, JsValue>): (r: map<string, JsValue>)
    ensures forall k :: k in r <==> k in h && h[k] != Undefined
    ensures forall k :: k in r ==> r[k] == h[k]
  {
    map k | k in h && h[k] != Undefined :: h[k]
  }

  /** The header loop: delete every header whose value is undefined. */
  method StripUndefined(headers: map<string, JsValue>) returns (h: map<string, JsValue>)
    ensures h == DefinedHeaders(headers)
  {
    h := headers;
    var keys := headers.Keys;
    while keys != {}
      invariant keys <= headers.Keys
      invariant forall k :: k in h <==> k in headers && (k in keys || headers[k] != Undefined)
      invariant forall k :: k in h ==> h[k] == headers[k]
      decreases |keys|
    {
      var k :| k in keys;
      if headers[k] == Undefined {
        h := h - {k};
      }
      keys := keys - {k};
    }
  }

  /** `JSON.stringify(json)` and `new URLSearchParams(form).toString()`. */
  datatype Platform = Platform(
    parseUrl: string -> Result<Url>,
    stringify: JsValue -> string,
    formEncode: JsValue -> string)

  /** The body sent: the serialized `json` option, else the encoded `form`
      option, else the `body` option as given. */
  function SelectedBody(env: Platform, json: JsValue, form: JsValue, body: JsValue): (r: JsValue)
    // the body is the serialization the content type announces, or the given body when none is set
    ensures ContentType(json, form) == Some("application/json") ==> r == Str(env.stringify(json))
    ensures ContentType(json, form) == Some("application/x-www-form-urlencoded") ==> r == Str(env.formEncode(form))
    ensures ContentType(json, form).None? ==> r == body
  {
    if Truthy(json) then Str(env.stringify(json))
    else if Truthy(form) then Str(env.formEncode(form))
    else body
  }

  /** The content type that goes with the selected body, if one is set. */
  function ContentType(json: JsValue, form: JsValue): Option<string>
  {
    if Truthy(json) then Some("application/json")
    else if Truthy(form) then Some("application/x-www-form-urlencoded")
    else None
  }

  /** `json` takes precedence over `form` whatever `form` holds. */
  lemma JsonOverForm(env: Platform, json: JsValue, form: JsValue, body: JsValue)
    requires Truthy(json)
    ensures SelectedBody(env, json, form, body) == SelectedBody(env, json, Undefined, Undefined)
    ensures ContentType(json, form) == Some("application/json")
  {
  }

  /** `body.length`: the length of a string, otherwise the `length` property. */
  function BodyLength(b: JsValue): (n: JsValue)
    ensures b.Str? ==> n == Num(|b.s|)
  {
    if b.Str? then Num(|b.s|) else Get(b, "length")
  }

  /** The headers after the body step: exactly `content-type` (when `json`
      or `form` selects one) and `content-length` (when there is a body) may
      be written, and every other header is kept as it was. */
  ghost predicate BodyHeaders(before: map<string, JsValue>, json: JsValue, form: JsValue, body: JsValue, after: map<string, JsValue>)
  {
    && (forall k :: k != "content-type" && k != "content-length" ==>
          (k in after <==> k in before) && (k in after ==> after[k] == before[k]))
    && (ContentType(json, form).Some? ==>
          "content-type" in after && after["content-type"] == Str(ContentType(json, form).value))
    && (ContentType(json, form).None? ==>
          ("content-type" in after <==> "content-type" in before)
          && ("content-type" in after ==> after["content-type"] == before["content-type"]))
    && (Truthy(body) ==> "content-length" in after && after["content-length"] == BodyLength(body))
    && (!Truthy(body) ==>
          ("content-length" in after <==> "content-length" in before)
          && ("content-length" in after ==> after["content-length"] == before["content-length"]))
  }

  /** Lines 97-108: the body is chosen and the content headers are set one after the other. */
  method ApplyBody(env: Platform, headers: map<string, JsValue>, json: JsValue, form: JsValue, body: JsValue)
    returns (h: map<string, JsValue>, b: JsValue)
    ensures b == SelectedBody(env, json, form, body)
    ensures BodyHeaders(headers, json, form, b, h)
  {
    h := headers;
    b := body;
    if Truthy(json) {
      h := h["content-type" := Str("application/json")];
      b := Str(env.stringify(json));
    } else if Truthy(form) {
      h := h["content-type" := Str("application/x-www-form-urlencoded")];
      b := Str(env.formEncode(form));
    }
    if Truthy(b) {
      h := h["content-length" := BodyLength(b)];
    }
  }

  /** The options that the destructuring at line 87 takes out of `opts`. */
  const Destructured: set<string> := {"form", "responseType", "json", "body", "timeout"}

  /** `opts.headers || {}`, as a plain object's properties. */
  function HeadersOf(opts: map<string, JsValue>): map<string, JsValue>
  {
    if Field(opts, "headers").Obj? then Field(opts, "headers").fields else map[]
  }

  /** The query parameters to merge: `opts.searchParams` when it is an object. */
  function SearchParamsOf(opts: map<string, JsValue>): map<string, JsValue>
  {
    if Field(opts, "searchParams").Obj? then Field(opts, "searchParams").fields else map[]
  }

  /* ---------- DPoP nonces ---------- */

  /** One character of NQCHAR (RFC 6749, Appendix A): %x21 / %x23-5B / %x5D-7E,
      i.e. visible ASCII except the double quote and the backslash. */
  predicate IsNqChar(c: char)
  {
    c == '!' || ('#' <= c <= '[') || (']' <= c <= '~')
  }

  /** `/^[\x21\x23-\x5B\x5D-\x7E]+$/.test(s)`, matched one character at a time. */
  function NqcharTest(s: string): (r: bool)
    ensures r <==> |s| > 0 && forall i :: 0 <= i < |s| ==> IsNqChar(s[i])
  {
    if |s| == 0 then false
    else IsNqChar(s[0]) && (|s| == 1 || NqcharTest(s[1..]))
  }

  /** Characters that can never be part of a cached nonce. */
  lemma NqcharRejects(s: string, i: nat)
    requires i < |s| && s[i] in {' ', '"', '\\', '\n', 'é'}
    ensures !NqcharTest(s)
  {
  }

  /** The nonce an exchange makes the helper remember: the `dpop-nonce`
      header, when there was a response, the header is present and non-empty,
      and every character of it is an NQCHAR. */
  function NonceOf(response: Option<Response>): (n: Option<string>)
    ensures n.Some? <==> response.Some? && HeaderGet(response.value, "dpop-nonce").Some?
                         && NqcharTest(HeaderGet(response.value, "dpop-nonce").value)
    ensures n.Some? ==> n.value == response.value.headers["dpop-nonce"]
  {
    if response.None? then None
    else
      var nonce := HeaderGet(response.value, "dpop-nonce");
      if nonce.Some? && Truthy(Str(nonce.value)) && NqcharTest(nonce.value) then nonce else None
  }

  /* ---------- The request ---------- */

  const MtlsMessage := "mTLS is only supported in Node environments"
  const DpopMessage := "DPoP is not currently supported in non-Node environments"
  const SchemeMessage := "only valid http/https URLs can be requested"

  /** What the request hands to `fetch`, and the key of its nonce cache entry. */
  datatype Prepared = Prepared(url: Url, opts: map<string, JsValue>, timeout: JsValue, responseType: JsValue, nonceKey: string)

  /** The checks that run before anything is merged: mTLS, then DPoP, then
      URL parsing, then the scheme. `Ok` carries the parsed URL. */
  function Preconditions(env: Platform, options: map<string, JsValue>, mtls: JsValue, dpop: JsValue): (r: Result<Url>)
    ensures r.Ok? <==> !Truthy(mtls) && !Truthy(dpop) && env.parseUrl(ToText(Field(options, "url"))).Ok?
                       && env.parseUrl(ToText(Field(options, "url"))).value.protocol in {"http:", "https:"}
    ensures Truthy(mtls) ==> r == Throw(Error(MtlsMessage))
    ensures !Truthy(mtls) && Truthy(dpop) ==> r == Throw(Error(DpopMessage))
    ensures !Truthy(mtls) && !Truthy(dpop) && env.parseUrl(ToText(Field(options, "url"))).Throw? ==>
              r == env.parseUrl(ToText(Field(options, "url")))
    ensures !Truthy(mtls) && !Truthy(dpop) && env.parseUrl(ToText(Field(options, "url"))).Ok?
            && env.parseUrl(ToText(Field(options, "url"))).value.protocol !in {"http:", "https:"} ==>
              r == Throw(TypeError(SchemeMessage))
  {
    if Truthy(mtls) then Throw(Error(MtlsMessage))
    else if Truthy(dpop) then Throw(Error(DpopMessage))
    else
      match env.parseUrl(ToText(Field(options, "url")))
      case Throw(e) => Throw(e)
      case Ok(url) =>
        if url.protocol == "http:" || url.protocol == "https:" then Ok(url)
        else Throw(TypeError(SchemeMessage))
  }

  /** Everything that holds of a prepared request, given the parsed URL and
      the client's defaults. */
  ghost predicate PreparedFrom(env: Platform, defaults: map<string, JsValue>, options: map<string, JsValue>, hook: Option<Hook>, url: Url, p: Prepared)
  {
    PreparedOf(env, MergedOptions(defaults, options, hook, url), url, p)
  }

  /** What a prepared request is, given the parsed URL and the merged options. */
  ghost predicate PreparedOf(env: Platform, merged: map<string, JsValue>, url: Url, p: Prepared)
  {
    var rest := merged - Destructured;
    var headers := DefinedHeaders(HeadersOf(rest));
    var json := Field(merged, "json");
    var form := Field(merged, "form");
    var body := SelectedBody(env, json, form, Field(merged, "body"));
    // the URL is the parsed one with the query merged; the cache key is origin and path
    && p.url == url.(query := p.url.query)
    && MergedQuery(url.query, SearchParamsOf(merged), p.url.query)
    && p.nonceKey == url.origin + url.pathname
    && p.timeout == Field(merged, "timeout")
    && p.responseType == Field(merged, "responseType")
    // the fetch options: the merged ones without the destructured names, with headers and body
    && p.opts.Keys == rest.Keys + {"headers"} + (if Truthy(body) then {"body"} else {})
    && (forall k :: k in rest && k != "headers" ==> p.opts[k] == rest[k])
    && (Truthy(body) ==> p.opts["body"] == body)
    && p.opts["headers"].Obj?
    && BodyHeaders(headers, json, form, body, p.opts["headers"].fields)
  }

  /** The fetch options assembled at lines 87-108 from the merged options,
      the cleaned headers and the body step. */
  function FetchOptions(rest: map<string, JsValue>, headers: map<string, JsValue>, body: JsValue): map<string, JsValue>
  {
    var withHeaders := rest["headers" := Obj(headers)];
    if Truthy(body) then withHeaders["body" := body] else withHeaders
  }

  /** The pieces computed one after the other make up a prepared request. */
  lemma AssemblePrepared(env: Platform, merged: map<string, JsValue>, url: Url, query: seq<Param>, h: map<string, JsValue>, body: JsValue)
    requires MergedQuery(url.query, SearchParamsOf(merged), query)
    requires body == SelectedBody(env, Field(merged, "json"), Field(merged, "form"), Field(merged, "body"))
    requires BodyHeaders(DefinedHeaders(HeadersOf(merged - Destructured)), Field(merged, "json"), Field(merged, "form"), body, h)
    ensures PreparedOf(env, merged, url,
                       Prepared(url.(query := query), FetchOptions(merged - Destructured, h, body),
                                Field(merged, "timeout"), Field(merged, "responseType"), url.origin + url.pathname))
  {
  }

  /** The header set of a prepared request keeps no undefined value unless
      the body headers put one there (a body without a `length`). */
  lemma PreparedHeadersDefined(env: Platform, defaults: map<string, JsValue>, options: map<string, JsValue>, hook: Option<Hook>, url: Url, p: Prepared, k: string)
    requires PreparedFrom(env, defaults, options, hook, url, p)
    requires k != "content-length" && k in p.opts["headers"].fields
    ensures p.opts["headers"].fields[k] != Undefined
  {
  }

  /** Merging a call header given as `undefined` over a defined default
      header yields the default's value. */
  lemma UndefinedHeaderMerged(options: map<string, JsValue>, defaults: map<string, JsValue>, k: string, v: string)
    requires Field(options, "headers").Obj? && Get(Field(options, "headers"), k) == Undefined
    requires Field(defaults, "headers").Obj? && Get(Field(defaults, "headers"), k) == Str(v)
    ensures Get(Field(DefaultsDeep([options, defaults]), "headers"), k) == Str(v)
  {
    var t1 := Fill(Obj(map[]), Obj(options));
    FillField(Obj(map[]), Obj(options), "headers");
    FillField(t1, Obj(defaults), "headers");
    FillField(Field(options, "headers"), Field(defaults, "headers"), k);
    assert [options, defaults][1..] == [defaults];
    assert [defaults][1..] == [];
    var t2 := Fill(t1, Obj(defaults));
    assert DefaultsAll(Obj(map[]), [options, defaults]) == DefaultsAll(t1, [defaults]) == DefaultsAll(t2, []) == t2;
    assert t2.Obj? && Field(DefaultsDeep([options, defaults]), "headers") == Get(t2, "headers");
    assert Get(t1, "headers") == Field(options, "headers");
    assert Get(t2, "headers") == Fill(Field(options, "headers"), Field(defaults, "headers"));
  }

  /** A merged header that is defined reaches the request unless the body
      step rewrites it. */
  lemma MergedHeaderSent(env: Platform, merged: map<string, JsValue>, url: Url, p: Prepared, k: string, v: string)
    requires PreparedOf(env, merged, url, p)
    requires Get(Field(merged, "headers"), k) == Str(v)
    requires k != "content-type" && k != "content-length"
    ensures k in p.opts["headers"].fields && p.opts["headers"].fields[k] == Str(v)
  {
    assert HeadersOf(merged - Destructured) == Field(merged, "headers").fields;
  }

  /** A call header given as `undefined` does not unset a default header:
      the merge fills it back in with the default's value before the
      header loop runs, so the request sends the default. */
  lemma UndefinedHeaderRefilled(env: Platform, defaults: map<string, JsValue>, options: map<string, JsValue>, url: Url, p: Prepared, k: string, v: string)
    requires PreparedFrom(env, defaults, options, None, url, p)
    requires Field(options, "headers").Obj? && Get(Field(options, "headers"), k) == Undefined
    requires Field(defaults, "headers").Obj? && Get(Field(defaults, "headers"), k) == Str(v)
    requires k != "content-type" && k != "content-length"
    ensures k in p.opts["headers"].fields && p.opts["headers"].fields[k] == Str(v)
  {
    UndefinedHeaderMerged(options, defaults, k, v);
    MergedHeaderSent(env, MergedOptions(defaults, options, None, url), url, p, k, v);
  }

  /** The user agent the client sends by default. */
  function UserAgent(name: string, version: string, homepage: string): string
  {
    name + "/" + version + " (" + homepage + ")"
  }

  /** The options the module configures when it is loaded. */
  function InitialOptions(name: string, version: string, homepage: string): map<string, JsValue>
  {
    map["headers" := Obj(map["User-Agent" := Str(UserAgent(name, version, homepage))]), "timeout" := Num(3500)]
  }

  /** `setDefaults(props, options)`: the picked options take precedence over,
      and are merged into, the current defaults. */
  function SetDefaultsValue(props: seq<string>, options: map<string, JsValue>, current: map<string, JsValue>): map<string, JsValue>
  {
    DefaultsDeep([if |props| > 0 then Pick(options, props) else options, current])
  }

  /** At load time the defaults are the user agent header and a 3500 ms timeout. */
  lemma InitialDefaults(name: string, version: string, homepage: string)
    ensures Field(SetDefaultsValue([], InitialOptions(name, version, homepage), map[]), "timeout") == Num(3500)
    ensures Get(Field(SetDefaultsValue([], InitialOptions(name, version, homepage), map[]), "headers"), "User-Agent")
            == Str(UserAgent(name, version, homepage))
  {
    var init := InitialOptions(name, version, homepage);
    var t := Fill(Obj(map[]), Obj(init));
    FillField(Obj(map[]), Obj(init), "timeout");
    FillField(Obj(map[]), Obj(init), "headers");
    FillField(t, Obj(map[]), "timeout");
    FillField(t, Obj(map[]), "headers");
    var empty: map<string, JsValue> := map[];
    assert [init, empty][1..] == [empty];
    assert [empty][1..] == [];
    assert DefaultsAll(t, [empty]) == DefaultsAll(Fill(t, Obj(empty)), []);
    assert DefaultsAll(Obj(map[]), [init, empty]) == DefaultsAll(t, [empty]);
  }

  /** The client state the helper keeps between requests: the default HTTP
      options and the DPoP nonce cache, keyed by origin and path. */
  class HttpClient {
    var defaults: map<string, JsValue>
    var nonces: map<string, string>

    /** Module load: the defaults of `InitialOptions` and an empty cache. */
    constructor(name: string, version: string, homepage: string)
      ensures defaults == SetDefaultsValue([], InitialOptions(name, version, homepage), map[])
      ensures nonces == map[]
    {
      defaults := SetDefaultsValue([], InitialOptions(name, version, homepage), map[]);
      nonces := map[];
    }

    /** The exported `setDefaults(options)`, bound to the allowed names. */
    method SetDefaults(options: map<string, JsValue>)
      modifies this`defaults
      ensures defaults == SetDefaultsValue(Allowed, options, old(defaults))
    {
      defaults := SetDefaultsValue(Allowed, options, defaults);
    }

    /** Lines 44-108: the checks, then the merged options, the query, the
      headers and the body; the nonce cache is not touched. */
    method Prepare(env: Platform, options: map<string, JsValue>, mtls: JsValue, dpop: JsValue, hook: Option<Hook>)
      returns (r: Result<Prepared>)
      ensures Preconditions(env, options, mtls, dpop).Throw? ==> r == Throw(Preconditions(env, options, mtls, dpop).thrown)
      ensures Preconditions(env, options, mtls, dpop).Ok? ==>
                r.Ok? && PreparedFrom(env, defaults, options, hook, Preconditions(env, options, mtls, dpop).value, r.value)
    {
      var checked := Preconditions(env, options, mtls, dpop);
      if checked.Throw? {
        return Throw(checked.thrown);
      }
      var url := checked.value;
      var nonceKey := url.origin + url.pathname;
      var opts := MergedOptions(defaults, options, hook, url);
      var query := url.query;
      if Truthy(Field(opts, "searchParams")) {
        var entries := Entries(SearchParamsOf(opts));
        query := MergeSearchParams(url.query, entries);
        MergedQueryOf(url.query, SearchParamsOf(opts), entries, query);
      } else {
        assert SearchParamsOf(opts) == map[];
        MergedQueryNone(url.query);
      }
      var rest := opts - Destructured;
      var headers := StripUndefined(HeadersOf(rest));
      var h, body := ApplyBody(env, headers, Field(opts, "json"), Field(opts, "form"), Field(opts, "body"));
      AssemblePrepared(env, opts, url, query, h, body);
      r := Ok(Prepared(url.(query := query), FetchOptions(rest, h, body), Field(opts, "timeout"), Field(opts, "responseType"), nonceKey));
    }

    /** The `finally` block: remember a well-formed `dpop-nonce`. */
    method RecordNonce(nonceKey: string, response: Option<Response>)
      modifies this`nonces
      ensures NonceOf(response).Some? ==> nonces == old(nonces)[nonceKey := NonceOf(response).value]
      ensures NonceOf(response).None? ==> nonces == old(nonces)
    {
      var nonce := NonceOf(response);
      if nonce.Some? {
        nonces := nonces[nonceKey := nonce.value];
      }
    }

    /** `request(options, { mTLS, DPoP })` up to the exchange; `response` is
      what the exchange returned, if anything. A request that fails its
      checks never reaches the `try`, so its `finally` does not run. */
    method Request(env: Platform, options: map<string, JsValue>, mtls: JsValue, dpop: JsValue, hook: Option<Hook>, response: Option<Response>)
      returns (r: Result<Prepared>)
      modifies this`nonces
      ensures Preconditions(env, options, mtls, dpop).Throw? ==>
                r == Throw(Preconditions(env, options, mtls, dpop).thrown) && nonces == old(nonces)
      ensures Preconditions(env, options, mtls, dpop).Ok? ==>
                r.Ok? && PreparedFrom(env, defaults, options, hook, Preconditions(env, options, mtls, dpop).value, r.value)
      ensures r.Ok? && NonceOf(response).Some? ==> nonces == old(nonces)[r.value.nonceKey := NonceOf(response).value]
      ensures r.Ok? && NonceOf(response).None? ==> nonces == old(nonces)
    {
      r := Prepare(env, options, mtls, dpop, hook);
      if r.Ok? {
        RecordNonce(r.value.nonceKey, response);
      }
    }
  }
}
