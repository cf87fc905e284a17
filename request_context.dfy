/** The argument accessors of `RequestContext` (src/server/request_context.h).
    A context is immutable once built, so it is a value here; every accessor
    is a function of the stored state except the query-string rebuilder, which
    the source writes as a loop. */
module RequestContexts {
  import opened Wrappers
  import opened Strings

  datatype RequestMethod = Get | Head | Post | Put | Delete | Connect | Options | Trace | Patch | Other

  /** Which signal chose the response language. */
  datatype SelectorKind = QueryParam | Cookie | AcceptLanguageHeader | Default

  datatype UserLanguage = UserLanguage(selectedBy: SelectorKind, lang: string)

  /** Why a strict accessor failed: the name is absent (`std::map::at`
      throws), its value list is empty, or `extractFromString<T>` rejected
      the value. */
  datatype ArgumentError = KeyError(name: string) | IndexError(name: string) | ConversionError(name: string)

  /** The part of the parsed exchange the accessors read. `arguments` is a
      `std::map`, so its names are iterated in `Strings.Less` order. */
  datatype RequestContext = RequestContext(
    arguments: map<string, seq<string>>,
    queryString: string,
    acceptEncodingGzip: bool)

  /** `get_query()`: the query string exactly as received. */
  function GetQuery(ctx: RequestContext): (q: string)
    ensures q == ctx.queryString
  {
    ctx.queryString
  }

  /** `can_compress()`: whether the client accepts gzip. */
  function CanCompress(ctx: RequestContext): (b: bool)
    ensures b == ctx.acceptEncodingGzip
  {
    ctx.acceptEncodingGzip
  }

  /** The string specialisation of `get_argument`: the first value stored
      under `name`. */
  function GetArgument(ctx: RequestContext, name: string): (r: Result<string, ArgumentError>)
    ensures name !in ctx.arguments ==> r == Failure(KeyError(name))
    ensures r.Success? <==> name in ctx.arguments && ctx.arguments[name] != []
    ensures r.Success? ==> r.value == ctx.arguments[name][0]
  {
    if name !in ctx.arguments then Failure(KeyError(name))
    else if ctx.arguments[name] == [] then Failure(IndexError(name))
    else Success(ctx.arguments[name][0])
  }

  /** `get_argument<T>`: the first value, converted by `extract` (the
      source's `extractFromString<T>`, which throws where `extract` yields
      `None`). */
  function GetArgumentAs<T>(ctx: RequestContext, name: string, extract: string -> Option<T>): (r: Result<T, ArgumentError>)
    ensures name !in ctx.arguments ==> r == Failure(KeyError(name))
    ensures r.Success? <==> GetArgument(ctx, name).Success? && extract(GetArgument(ctx, name).value).Some?
    ensures r.Success? ==> r.value == extract(GetArgument(ctx, name).value).value
  {
    match GetArgument(ctx, name)
    case Failure(e) => Failure(e)
    case Success(s) =>
      match extract(s)
      case None => Failure(ConversionError(name))
      case Some(v) => Success(v)
  }

  /** `get_arguments`: every value stored under `name`, in stored order. */
  function GetArguments(ctx: RequestContext, name: string): (r: Result<seq<string>, ArgumentError>)
    ensures name in ctx.arguments ==> r == Success(ctx.arguments[name])
    ensures name !in ctx.arguments ==> r == Failure(KeyError(name))
  {
    if name in ctx.arguments then Success(ctx.arguments[name]) else Failure(KeyError(name))
  }

  /** `get_optional_param`: `get_argument<T>` with every failure (absent name,
      empty list, unconvertible value) replaced by the caller's default. */
  function GetOptionalParam<T>(ctx: RequestContext, name: string, default: T, extract: string -> Option<T>): (v: T)
    ensures GetArgumentAs(ctx, name, extract).Success? ==> v == GetArgumentAs(ctx, name, extract).value
    ensures GetArgumentAs(ctx, name, extract).Failure? ==> v == default
  {
    match GetArgumentAs(ctx, name, extract)
    case Success(x) => x
    case Failure(_) => default
  }

  /** A missing argument makes the strict accessor fail with a key error and
      the optional one return its default. */
  lemma MissingArgument<T>(ctx: RequestContext, name: string, default: T, extract: string -> Option<T>)
    requires name !in ctx.arguments
    ensures GetArgumentAs(ctx, name, extract) == Failure(KeyError(name))
    ensures GetOptionalParam(ctx, name, default, extract) == default
  {
  }

  // ---------------------------------------------------------------------
  // get_query(filter)
  // ---------------------------------------------------------------------

  /** The (name, value) pairs of one argument, in stored order. */
  function Block(name: string, values: seq<string>): seq<(string, string)>
  {
    seq(|values|, j requires 0 <= j < |values| => (name, values[j]))
  }

  /** The pairs contributed by the names `keys`, in that order, skipping the
      names `filter` rejects. */
  function PairsFor(keys: seq<string>, args: map<string, seq<string>>, filter: string -> bool): seq<(string, string)>
    requires forall k :: k in keys ==> k in args
  {
    if keys == [] then []
    else (if filter(keys[0]) then Block(keys[0], args[keys[0]]) else [])
         + PairsFor(keys[1..], args, filter)
  }

  /** The pairs `get_query(filter)` emits: accepted names in map order, each
      name's values in stored order. */
  function AcceptedPairs(args: map<string, seq<string>>, filter: string -> bool): seq<(string, string)>
  {
    PairsFor(Ascending(args.Keys), args, filter)
  }

  function RenderPair(p: (string, string), urlEncode: string -> string): string
  {
    urlEncode(p.0) + "=" + urlEncode(p.1)
  }

  function RenderPairs(ps: seq<(string, string)>, urlEncode: string -> string): seq<string>
  {
    seq(|ps|, k requires 0 <= k < |ps| => RenderPair(ps[k], urlEncode))
  }

  /** The query string rebuilt from the accepted pairs. */
  function QueryOf(args: map<string, seq<string>>, filter: string -> bool, urlEncode: string -> string): string
  {
    Join(RenderPairs(AcceptedPairs(args, filter), urlEncode), '&')
  }

  lemma {:induction false} PairsForAppend(xs: seq<string>, ys: seq<string>, args: map<string, seq<string>>, filter: string -> bool)
    requires forall k :: k in xs + ys ==> k in args
    ensures PairsFor(xs + ys, args, filter) == PairsFor(xs, args, filter) + PairsFor(ys, args, filter)
  {
    var whole := xs + ys;
    if xs != [] {
      var head := if filter(xs[0]) then Block(xs[0], args[xs[0]]) else [];
      assert whole[0] == xs[0] && whole[1..] == xs[1..] + ys;
      PairsForAppend(xs[1..], ys, args, filter);
      assert PairsFor(whole, args, filter) == head + PairsFor(xs[1..] + ys, args, filter);
      assert PairsFor(xs, args, filter) == head + PairsFor(xs[1..], args, filter);
    } else {
      assert whole == ys;
    }
  }

  lemma RenderPairsAppend(ps: seq<(string, string)>, qs: seq<(string, string)>, urlEncode: string -> string)
    ensures RenderPairs(ps + qs, urlEncode) == RenderPairs(ps, urlEncode) + RenderPairs(qs, urlEncode)
  {
  }

  /** Appending one pair to the emitted pairs appends the separator (unless
      nothing was emitted yet) and the rendered pair to the query. */
  lemma JoinRenderedSnoc(ps: seq<(string, string)>, p: (string, string), urlEncode: string -> string)
    ensures Join(RenderPairs(ps + [p], urlEncode), '&')
         == Join(RenderPairs(ps, urlEncode), '&') + (if ps == [] then "" else "&") + RenderPair(p, urlEncode)
  {
    RenderPairsAppend(ps, [p], urlEncode);
    assert RenderPairs([p], urlEncode) == [RenderPair(p, urlEncode)];
    assert ps == [] <==> RenderPairs(ps, urlEncode) == [];
    JoinSnoc(RenderPairs(ps, urlEncode), RenderPair(p, urlEncode), '&');
  }

  lemma BlockSnoc(name: string, values: seq<string>, j: nat)
    requires j < |values|
    ensures Block(name, values[..j + 1]) == Block(name, values[..j]) + [(name, values[j])]
  {
    var a, b := Block(name, values[..j + 1]), Block(name, values[..j]) + [(name, values[j])];
    assert |a| == |b|;
    forall k | 0 <= k < |a| ensures a[k] == b[k] {
      if k < j { assert b[k] == Block(name, values[..j])[k]; }
    }
  }

  /** One iteration of the inner loop of `get_query(filter)`. */
  lemma ValueStep(before: seq<(string, string)>, name: string, values: seq<string>, j: nat, urlEncode: string -> string)
    requires j < |values|
    ensures before + Block(name, values[..j + 1]) == before + Block(name, values[..j]) + [(name, values[j])]
    ensures Join(RenderPairs(before + Block(name, values[..j + 1]), urlEncode), '&')
         == Join(RenderPairs(before + Block(name, values[..j]), urlEncode), '&')
            + (if before + Block(name, values[..j]) == [] then "" else "&")
            + urlEncode(name) + "=" + urlEncode(values[j])
  {
    BlockSnoc(name, values, j);
    JoinRenderedSnoc(before + Block(name, values[..j]), (name, values[j]), urlEncode);
  }

  lemma PairsForSnoc(keys: seq<string>, i: nat, args: map<string, seq<string>>, filter: string -> bool)
    requires i < |keys|
    requires forall k :: k in keys ==> k in args
    ensures PairsFor(keys[..i + 1], args, filter)
         == PairsFor(keys[..i], args, filter) + (if filter(keys[i]) then Block(keys[i], args[keys[i]]) else [])
  {
    assert keys[..i + 1] == keys[..i] + [keys[i]];
    PairsForAppend(keys[..i], [keys[i]], args, filter);
    assert PairsFor([keys[i]], args, filter)
        == (if filter(keys[i]) then Block(keys[i], args[keys[i]]) else []) + PairsFor([], args, filter);
  }

  /** The inner loop of `get_query(filter)`: append every stored value of one
      accepted argument to the query built so far. */
  method AppendValues(q0: string, sep0: string, name: string, values: seq<string>, urlEncode: string -> string,
                      ghost before: seq<(string, string)>)
    returns (q: string, sep: string)
    requires q0 == Join(RenderPairs(before, urlEncode), '&')
    requires sep0 == if before == [] then "" else "&"
    ensures q == Join(RenderPairs(before + Block(name, values), urlEncode), '&')
    ensures sep == if before + Block(name, values) == [] then "" else "&"
  {
    q, sep := q0, sep0;
    var j := 0;
    assert before + Block(name, values[..0]) == before;
    while j < |values|
      invariant 0 <= j <= |values|
      invariant q == Join(RenderPairs(before + Block(name, values[..j]), urlEncode), '&')
      invariant sep == if before + Block(name, values[..j]) == [] then "" else "&"
    {
      ValueStep(before, name, values, j, urlEncode);
      q := q + sep + urlEncode(name) + "=" + urlEncode(values[j]);
      sep := "&";
      j := j + 1;
    }
    assert values[..j] == values;
  }

  /** The outer loop of `get_query(filter)` over the argument names `keys`:
      skip rejected names and append every value of the accepted ones. */
  method AppendArguments(args: map<string, seq<string>>, keys: seq<string>, filter: string -> bool,
                         urlEncode: string -> string)
    returns (q: string)
    requires forall k :: k in keys ==> k in args
    ensures q == Join(RenderPairs(PairsFor(keys, args, filter), urlEncode), '&')
  {
    q := "";
    var sep := "";
    ghost var emitted: seq<(string, string)> := [];
    var i := 0;
    while i < |keys|
      invariant 0 <= i <= |keys|
      invariant emitted == PairsFor(keys[..i], args, filter)
      invariant q == Join(RenderPairs(emitted, urlEncode), '&')
      invariant sep == if emitted == [] then "" else "&"
    {
      var name := keys[i];
      PairsForSnoc(keys, i, args, filter);
      if filter(name) {
        q, sep := AppendValues(q, sep, name, args[name], urlEncode, emitted);
        emitted := emitted + Block(name, args[name]);
      }
      i := i + 1;
    }
    assert keys[..i] == keys;
  }

  /** `get_query(filter)`: walk the arguments in map order, skip rejected
      names, and append `urlEncode(name)=urlEncode(value)` for every stored
      value, with `&` between pairs. */
  method GetQueryFiltered(ctx: RequestContext, filter: string -> bool, urlEncode: string -> string) returns (q: string)
    ensures q == QueryOf(ctx.arguments, filter, urlEncode)
  {
    q := AppendArguments(ctx.arguments, Ascending(ctx.arguments.Keys), filter, urlEncode);
  }

  // ---------------------------------------------------------------------
  // Properties of get_query(filter)
  // ---------------------------------------------------------------------

  /** The values paired with `name` in `ps`, in order. */
  function ValuesOf(ps: seq<(string, string)>, name: string): seq<string>
  {
    if ps == [] then []
    else (if ps[0].0 == name then [ps[0].1] else []) + ValuesOf(ps[1..], name)
  }

  lemma {:induction false} ValuesOfAppend(ps: seq<(string, string)>, qs: seq<(string, string)>, name: string)
    ensures ValuesOf(ps + qs, name) == ValuesOf(ps, name) + ValuesOf(qs, name)
  {
    if ps != [] {
      assert (ps + qs)[1..] == ps[1..] + qs;
      ValuesOfAppend(ps[1..], qs, name);
    } else {
      assert ps + qs == qs;
    }
  }

  lemma {:induction false} ValuesOfBlock(m: string, values: seq<string>, name: string)
    ensures ValuesOf(Block(m, values), name) == if m == name then values else []
  {
    if values != [] {
      assert Block(m, values) == [(m, values[0])] + Block(m, values[1..]);
      ValuesOfBlock(m, values[1..], name);
      ValuesOfAppend([(m, values[0])], Block(m, values[1..]), name);
    }
  }

  predicate Distinct(keys: seq<string>)
  {
    forall i, j :: 0 <= i < j < |keys| ==> keys[i] != keys[j]
  }

  lemma DistinctTail(keys: seq<string>)
    requires keys != [] && Distinct(keys)
    ensures Distinct(keys[1..]) && keys[0] !in keys[1..]
  {
    forall j | 0 <= j < |keys[1..]| ensures keys[1..][j] != keys[0] {
      assert keys[1..][j] == keys[j + 1];
    }
  }

  lemma {:induction false} ValuesOfPairsFor(keys: seq<string>, args: map<string, seq<string>>, filter: string -> bool, name: string)
    requires forall k :: k in keys ==> k in args
    requires Distinct(keys)
    ensures ValuesOf(PairsFor(keys, args, filter), name)
         == if name in keys && filter(name) then args[name] else []
  {
    if keys != [] {
      var head := if filter(keys[0]) then Block(keys[0], args[keys[0]]) else [];
      var tail := PairsFor(keys[1..], args, filter);
      assert PairsFor(keys, args, filter) == head + tail;
      ValuesOfAppend(head, tail, name);
      DistinctTail(keys);
      ValuesOfPairsFor(keys[1..], args, filter, name);
      if filter(keys[0]) { ValuesOfBlock(keys[0], args[keys[0]], name); }
      assert name in keys <==> name == keys[0] || name in keys[1..] by {
        assert keys == [keys[0]] + keys[1..];
      }
    }
  }

  lemma StrictlyAscendingDistinct(xs: seq<string>)
    requires StrictlyAscending(xs)
    ensures Distinct(xs)
  {
    forall i, j | 0 <= i < j < |xs| ensures xs[i] != xs[j] {
      if xs[i] == xs[j] { LessIrreflexive(xs[i]); }
    }
  }

  /** Within the rebuilt query every name's values appear exactly as stored,
      in stored order, if the filter accepts the name, and not at all
      otherwise. */
  lemma ValuesPreserved(args: map<string, seq<string>>, filter: string -> bool, name: string)
    ensures ValuesOf(AcceptedPairs(args, filter), name)
         == if name in args && filter(name) then args[name] else []
  {
    StrictlyAscendingDistinct(Ascending(args.Keys));
    ValuesOfPairsFor(Ascending(args.Keys), args, filter, name);
  }

  lemma {:induction false} MultiplicityIsValuesCount(ps: seq<(string, string)>, name: string, value: string)
    ensures multiset(ps)[(name, value)] == multiset(ValuesOf(ps, name))[value]
  {
    if ps != [] {
      MultiplicityIsValuesCount(ps[1..], name, value);
      assert ps == [ps[0]] + ps[1..];
      assert multiset(ps) == multiset{ps[0]} + multiset(ps[1..]);
      var head := if ps[0].0 == name then [ps[0].1] else [];
      assert ValuesOf(ps, name) == head + ValuesOf(ps[1..], name);
      assert multiset(ValuesOf(ps, name)) == multiset(head) + multiset(ValuesOf(ps[1..], name));
    }
  }

  /** Each (name, value) pair is emitted exactly as many times as the value is
      stored under that name, if the filter accepts the name, and never
      otherwise. */
  lemma PairMultiplicity(args: map<string, seq<string>>, filter: string -> bool, name: string, value: string)
    ensures multiset(AcceptedPairs(args, filter))[(name, value)]
         == if name in args && filter(name) then multiset(args[name])[value] else 0
  {
    MultiplicityIsValuesCount(AcceptedPairs(args, filter), name, value);
    ValuesPreserved(args, filter, name);
  }

  /** A filter that rejects every stored name yields the empty string. */
  lemma RejectAllIsEmpty(args: map<string, seq<string>>, filter: string -> bool, urlEncode: string -> string)
    requires forall n :: n in args ==> !filter(n)
    ensures QueryOf(args, filter, urlEncode) == ""
  {
    var keys := Ascending(args.Keys);
    assert forall k :: k in keys ==> k in args && !filter(k);
    PairsForRejected(keys, args, filter);
  }

  lemma {:induction false} PairsForRejected(keys: seq<string>, args: map<string, seq<string>>, filter: string -> bool)
    requires forall k :: k in keys ==> k in args && !filter(k)
    ensures PairsFor(keys, args, filter) == []
  {
    if keys != [] { PairsForRejected(keys[1..], args, filter); }
  }

  lemma {:induction false} PairsForNames(keys: seq<string>, args: map<string, seq<string>>, filter: string -> bool)
    requires forall k :: k in keys ==> k in args
    ensures forall k :: 0 <= k < |PairsFor(keys, args, filter)| ==>
              PairsFor(keys, args, filter)[k].0 in keys && filter(PairsFor(keys, args, filter)[k].0)
  {
    if keys != [] {
      PairsForNames(keys[1..], args, filter);
      var head := if filter(keys[0]) then Block(keys[0], args[keys[0]]) else [];
      var ps := PairsFor(keys, args, filter);
      forall k | 0 <= k < |ps| ensures ps[k].0 in keys && filter(ps[k].0) {
        if k >= |head| { assert ps[k] == PairsFor(keys[1..], args, filter)[k - |head|]; }
      }
    }
  }

  /** Names never decrease along `ps`. */
  predicate NamesAscending(ps: seq<(string, string)>)
  {
    forall i, j :: 0 <= i < j < |ps| ==> ps[i].0 == ps[j].0 || Less(ps[i].0, ps[j].0)
  }

  lemma {:induction false} PairsForOrdered(keys: seq<string>, args: map<string, seq<string>>, filter: string -> bool)
    requires forall k :: k in keys ==> k in args
    requires StrictlyAscending(keys)
    ensures NamesAscending(PairsFor(keys, args, filter))
  {
    if keys != [] {
      var rest := PairsFor(keys[1..], args, filter);
      PairsForOrdered(keys[1..], args, filter);
      PairsForNames(keys[1..], args, filter);
      var head := if filter(keys[0]) then Block(keys[0], args[keys[0]]) else [];
      var ps := head + rest;
      forall i, j | 0 <= i < j < |ps| ensures ps[i].0 == ps[j].0 || Less(ps[i].0, ps[j].0) {
        if j < |head| {
        } else if i < |head| {
          assert ps[j] == rest[j - |head|];
          var m := rest[j - |head|].0;
          assert m in keys[1..];
          var t :| 0 <= t < |keys[1..]| && keys[1..][t] == m;
          assert keys[t + 1] == m;
        } else {
          assert ps[i] == rest[i - |head|] && ps[j] == rest[j - |head|];
        }
      }
    }
  }

  /** Pairs come out in ascending name order (the map's order). */
  lemma PairsAscendingByName(args: map<string, seq<string>>, filter: string -> bool)
    ensures NamesAscending(AcceptedPairs(args, filter))
  {
    PairsForOrdered(Ascending(args.Keys), args, filter);
  }

  /** What a client recovers from a query string: the `&`-separated fields,
      each read as the text before its first `=` (the name) and the text
      between its first and second `=` (the value, "" when there is no `=`). */
  function DecodeQuery(q: string): seq<(string, string)>
  {
    if q == "" then []
    else
      var fields := Split(q, '&');
      seq(|fields|, k requires 0 <= k < |fields| =>
        var parts := Split(fields[k], '=');
        (parts[0], if |parts| > 1 then parts[1] else ""))
  }

  function EncodePairs(ps: seq<(string, string)>, urlEncode: string -> string): seq<(string, string)>
  {
    seq(|ps|, k requires 0 <= k < |ps| => (urlEncode(ps[k].0), urlEncode(ps[k].1)))
  }

  /** `urlEncode` escapes the two delimiters of a query string. */
  ghost predicate EscapesDelimiters(urlEncode: string -> string)
  {
    forall s :: '&' !in urlEncode(s) && '=' !in urlEncode(s)
  }

  lemma RenderedFieldsHaveNoAmpersand(ps: seq<(string, string)>, urlEncode: string -> string)
    requires EscapesDelimiters(urlEncode)
    ensures forall k :: 0 <= k < |RenderPairs(ps, urlEncode)| ==> '&' !in RenderPairs(ps, urlEncode)[k]
  {
    forall k | 0 <= k < |ps| ensures '&' !in RenderPairs(ps, urlEncode)[k] {
      var a, b := urlEncode(ps[k].0), urlEncode(ps[k].1);
      assert RenderPairs(ps, urlEncode)[k] == a + "=" + b;
      assert '&' !in a && '&' !in b;
    }
  }

  lemma FieldSplits(a: string, b: string)
    requires '=' !in a && '=' !in b
    ensures Split(a + "=" + b, '=') == [a, b]
  {
    assert a + "=" + b == Join([a, b], '=');
    SplitJoin([a, b], '=');
  }

  /** Splitting the rebuilt query on `&` and `=` gives back exactly the
      accepted pairs, encoded, in order; with an accept-all filter these are
      all the stored pairs (see PairMultiplicity). */
  lemma QueryRoundTrip(args: map<string, seq<string>>, filter: string -> bool, urlEncode: string -> string)
    requires EscapesDelimiters(urlEncode)
    ensures DecodeQuery(QueryOf(args, filter, urlEncode))
         == EncodePairs(AcceptedPairs(args, filter), urlEncode)
  {
    var ps := AcceptedPairs(args, filter);
    var parts := RenderPairs(ps, urlEncode);
    var q := Join(parts, '&');
    if ps != [] {
      RenderedFieldsHaveNoAmpersand(ps, urlEncode);
      SplitJoin(parts, '&');
      JoinStartsWithFirst(parts, '&');
      assert q != "";
      var d := DecodeQuery(q);
      assert |d| == |ps|;
      forall k | 0 <= k < |ps| ensures d[k] == EncodePairs(ps, urlEncode)[k] {
        var a, b := urlEncode(ps[k].0), urlEncode(ps[k].1);
        FieldSplits(a, b);
        assert parts[k] == a + "=" + b;
      }
    }
  }
}
