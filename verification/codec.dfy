/**
 * The parameter codec of DPULaunchConfigurationDelegate: the static helpers that turn a
 * parameter map into a parameter list and back, and that parse `key=value` tokens.
 *
 * A Java `Map<String, String>` is a Dafny `map<string, string>`; a `List<IParameter>` is a
 * `seq<Parameter>`. A null argument is `None`.
 */
module Codec {
  import opened Wrappers

  /** One key/value parameter record of a DPU (IParameter). */
  datatype Parameter = Parameter(key: string, value: string)

  /** The keys that occur in a parameter list. */
  function KeySet(ps: seq<Parameter>): set<string> {
    set p | p in ps :: p.key
  }

  /** No key occurs twice in the list. */
  predicate DistinctKeys(ps: seq<Parameter>) {
    forall i, j :: 0 <= i < j < |ps| ==> ps[i].key != ps[j].key
  }

  /** Null or empty stands for the empty map. */
  function MapOrEmpty(m: Option<map<string, string>>): map<string, string> {
    m.GetOr(map[])
  }

  /** Null or empty stands for the empty list. */
  function ListOrEmpty(ps: Option<seq<Parameter>>): seq<Parameter> {
    ps.GetOr([])
  }

  /**
   * The map obtained by putting every parameter, first to last, into an empty map: the
   * specification of parametersToString. Its keys are exactly the keys of the list.
   */
  function ToMap(ps: seq<Parameter>): (m: map<string, string>)
    ensures m.Keys == KeySet(ps)
  {
    if ps == [] then map[]
    else
      var last := ps[|ps| - 1];
      assert ps == ps[..|ps| - 1] + [last];
      ToMap(ps[..|ps| - 1])[last.key := last.value]
  }

  /** Putting one more parameter into the map overwrites that key and nothing else. */
  lemma ToMapSnoc(ps: seq<Parameter>, p: Parameter)
    ensures ToMap(ps + [p]) == ToMap(ps)[p.key := p.value]
  {
    assert (ps + [p])[..|ps|] == ps;
  }

  /** Last write wins: a key maps to the value of its last occurrence in the list. */
  lemma {:induction false} ToMapLastWins(ps: seq<Parameter>, i: int)
    requires 0 <= i < |ps|
    requires forall j :: i < j < |ps| ==> ps[j].key != ps[i].key
    ensures ps[i].key in ToMap(ps) && ToMap(ps)[ps[i].key] == ps[i].value
  {
    if i < |ps| - 1 {
      ToMapLastWins(ps[..|ps| - 1], i);
    }
  }

  /** The list holds each entry of `m` exactly once, and nothing else. */
  ghost predicate IsEntryList(ps: seq<Parameter>, m: map<string, string>) {
    && |ps| == |m|
    && DistinctKeys(ps)
    && KeySet(ps) == m.Keys
    && forall p | p in ps :: p.key in m && m[p.key] == p.value
  }

  /** Round trip: putting an entry list of `m` back into a map gives `m` again. */
  lemma EntryListRoundTrip(ps: seq<Parameter>, m: map<string, string>)
    requires IsEntryList(ps, m)
    ensures ToMap(ps) == m
  {
    forall k | k in m ensures k in ToMap(ps) && ToMap(ps)[k] == m[k] {
      var i :| 0 <= i < |ps| && ps[i].key == k;
      ToMapLastWins(ps, i);
    }
  }

  /** A list without repeated elements has the multiset of its set of elements. */
  lemma {:induction false} DistinctMultiset(ps: seq<Parameter>)
    requires DistinctKeys(ps)
    ensures multiset(ps) == multiset(set p | p in ps)
  {
    if ps != [] {
      var init := ps[..|ps| - 1];
      var last := ps[|ps| - 1];
      DistinctMultiset(init);
      assert ps == init + [last];
      forall i | 0 <= i < |init| ensures init[i] != last {
        assert ps[i].key != ps[|ps| - 1].key;
      }
      assert (set p | p in ps) == (set p | p in init) + {last};
    }
  }

  /**
   * Two entry lists of the same map are permutations of each other: converting a map to a
   * list is stable up to order, whatever order the map is walked in.
   */
  lemma EntryListsArePermutations(ps: seq<Parameter>, qs: seq<Parameter>, m: map<string, string>)
    requires IsEntryList(ps, m) && IsEntryList(qs, m)
    ensures multiset(ps) == multiset(qs)
  {
    assert (set p | p in ps) == (set q | q in qs) by {
      forall p | p in ps ensures p in qs {
        var i :| 0 <= i < |qs| && qs[i].key == p.key;
      }
      forall q | q in qs ensures q in ps {
        var i :| 0 <= i < |ps| && ps[i].key == q.key;
      }
    }
    DistinctMultiset(ps);
    DistinctMultiset(qs);
  }

  /**
   * Part way through walking `m`: `ps` holds each entry of `m` outside `rest` exactly once,
   * and nothing else.
   */
  ghost predicate EntriesExcept(ps: seq<Parameter>, m: map<string, string>, rest: set<string>) {
    && rest <= m.Keys
    && KeySet(ps) == m.Keys - rest
    && |ps| + |rest| == |m|
    && DistinctKeys(ps)
    && forall p | p in ps :: p.key in m && m[p.key] == p.value
  }

  /** Adding the entry of one more unvisited key keeps the walk consistent. */
  lemma {:induction false} EntriesExceptStep(ps: seq<Parameter>, m: map<string, string>, rest: set<string>, k: string)
    requires EntriesExcept(ps, m, rest) && k in rest
    ensures EntriesExcept(ps + [Parameter(k, m[k])], m, rest - {k})
  {
    var qs := ps + [Parameter(k, m[k])];
    assert KeySet(qs) == KeySet(ps) + {k};
    forall i, j | 0 <= i < j < |qs| ensures qs[i].key != qs[j].key {
      if j == |ps| {
        assert ps[i] in ps;
      }
    }
  }

  /** A finished walk is an entry list. */
  lemma {:induction false} EntriesExceptDone(ps: seq<Parameter>, m: map<string, string>)
    requires EntriesExcept(ps, m, {})
    ensures IsEntryList(ps, m)
  {
  }

  /**
   * stringToParameters: a null or empty map gives an empty list; otherwise one parameter per
   * entry, walked in an order the map does not fix (HashMap iteration order).
   */
  method StringToParameters(parameters: Option<map<string, string>>) returns (ps: seq<Parameter>)
    ensures IsEntryList(ps, MapOrEmpty(parameters))
    ensures ToMap(ps) == MapOrEmpty(parameters)
  {
    if parameters.None? || |parameters.value| == 0 {
      ps := [];
      return;
    }
    var m := parameters.value;
    var rest := m.Keys;
    ps := [];
    while rest != {}
      invariant EntriesExcept(ps, m, rest)
      decreases rest
    {
      var k :| k in rest;
      EntriesExceptStep(ps, m, rest, k);
      ps := ps + [Parameter(k, m[k])];
      rest := rest - {k};
    }
    EntriesExceptDone(ps, m);
    EntryListRoundTrip(ps, m);
  }

  /**
   * parametersToString: a null or empty list gives an empty map; otherwise each parameter is
   * put in turn, so the last occurrence of a key decides its value.
   */
  method ParametersToString(parameters: Option<seq<Parameter>>) returns (m: map<string, string>)
    ensures m == ToMap(ListOrEmpty(parameters))
    ensures m.Keys == KeySet(ListOrEmpty(parameters))
  {
    if parameters.None? || |parameters.value| == 0 {
      m := map[];
      return;
    }
    var ps := parameters.value;
    m := map[];
    var i := 0;
    while i < |ps|
      invariant 0 <= i <= |ps|
      invariant m == ToMap(ps[..i])
    {
      ToMapSnoc(ps[..i], ps[i]);
      assert ps[..i + 1] == ps[..i] + [ps[i]];
      m := m[ps[i].key := ps[i].value];
      i := i + 1;
    }
    assert ps[..i] == ps;
  }

  /** A list whose keys are distinct has as many keys as entries. */
  lemma {:induction false} DistinctKeyCount(ps: seq<Parameter>)
    requires DistinctKeys(ps)
    ensures |KeySet(ps)| == |ps|
  {
    if ps != [] {
      var init := ps[..|ps| - 1];
      var last := ps[|ps| - 1];
      DistinctKeyCount(init);
      assert ps == init + [last];
      assert KeySet(ps) == KeySet(init) + {last.key};
      assert last.key !in KeySet(init) by {
        forall i | 0 <= i < |init| ensures init[i].key != last.key {
          assert ps[i].key != ps[|ps| - 1].key;
        }
      }
    }
  }

  /** A list whose keys are distinct is an entry list of its own map. */
  lemma OwnEntryList(ps: seq<Parameter>)
    requires DistinctKeys(ps)
    ensures IsEntryList(ps, ToMap(ps))
  {
    DistinctKeyCount(ps);
    forall i | 0 <= i < |ps| ensures ToMap(ps)[ps[i].key] == ps[i].value {
      ToMapLastWins(ps, i);
    }
  }

  /** Round trip map -> list -> map: the map comes back unchanged (null comes back empty). */
  method MapRoundTrip(parameters: Option<map<string, string>>) returns (back: map<string, string>)
    ensures back == MapOrEmpty(parameters)
  {
    var ps := StringToParameters(parameters);
    back := ParametersToString(Some(ps));
  }

  /**
   * Round trip list -> map -> list: a list whose keys are distinct comes back with the same
   * parameters, possibly in another order.
   */
  method ListRoundTrip(parameters: seq<Parameter>) returns (back: seq<Parameter>)
    requires DistinctKeys(parameters)
    ensures multiset(back) == multiset(parameters)
  {
    var m := ParametersToString(Some(parameters));
    back := StringToParameters(Some(m));
    OwnEntryList(parameters);
    EntryListsArePermutations(back, parameters, m);
  }

  // ---------------------------------------------------------------------------------------
  // `key=value` tokens, split as Java's String.split("=") splits them
  // ---------------------------------------------------------------------------------------

  /** The separator of a `key=value` token. */
  const Sep: char := '='

  /** The position of the first separator (String.indexOf). */
  function IndexOfSep(s: string): (i: nat)
    requires Sep in s
    ensures i < |s| && s[i] == Sep && Sep !in s[..i]
  {
    if s[0] == Sep then 0
    else
      assert Sep in s[1..] by {
        var k :| 0 <= k < |s| && s[k] == Sep;
        assert s[1..][k - 1] == Sep;
      }
      var j := IndexOfSep(s[1..]);
      assert s[..j + 1] == [s[0]] + s[1..][..j];
      j + 1
  }

  /** Every fragment between separators, empty ones included. */
  function SplitAll(s: string): (r: seq<string>)
    ensures |r| >= 1
    decreases |s|
  {
    if Sep !in s then [s]
    else
      var i := IndexOfSep(s);
      [s[..i]] + SplitAll(s[i + 1..])
  }

  /** Drops the empty fragments at the end, as String.split with limit 0 does. */
  function StripTrailingEmpty(xs: seq<string>): (r: seq<string>)
    ensures r <= xs
    ensures r == [] || r[|r| - 1] != []
  {
    if xs != [] && xs[|xs| - 1] == [] then StripTrailingEmpty(xs[..|xs| - 1]) else xs
  }

  /** Stripping drops only empty fragments. */
  lemma {:induction false} StripFacts(xs: seq<string>)
    ensures var r := StripTrailingEmpty(xs);
            forall k :: |r| <= k < |xs| ==> xs[k] == []
  {
    if xs != [] && xs[|xs| - 1] == [] {
      StripFacts(xs[..|xs| - 1]);
    }
  }

  /**
   * String.split("="): a string without a separator is its own single fragment (even the
   * empty string); otherwise the fragments, without the empty ones at the end.
   */
  function JavaSplit(s: string): (r: seq<string>)
    ensures Sep !in s ==> r == [s]
    ensures Sep in s ==> r <= SplitAll(s) && (r == [] || r[|r| - 1] != [])
  {
    if Sep !in s then [s] else StripTrailingEmpty(SplitAll(s))
  }

  /**
   * One token of parameterMap: the first fragment is the key and the second the value; a
   * token with fewer than two fragments fails the index access `keyValue[1]`.
   */
  function Assignment(token: string): (r: Option<Parameter>)
    ensures r.Some? ==> Sep in token
  {
    var fragments := JavaSplit(token);
    if |fragments| < 2 then None else Some(Parameter(fragments[0], fragments[1]))
  }

  /** The string holds no character other than the separator. */
  predicate OnlySeps(s: string) {
    forall j :: 0 <= j < |s| ==> s[j] == Sep
  }

  /** Every fragment from position `lo` on is empty. */
  predicate EmptyFrom(xs: seq<string>, lo: nat) {
    forall k :: lo <= k < |xs| ==> xs[k] == []
  }

  lemma EmptyFromCons(x: string, ys: seq<string>, lo: nat)
    ensures EmptyFrom([x] + ys, lo + 1) <==> EmptyFrom(ys, lo)
  {
    var xs := [x] + ys;
    assert forall k :: lo <= k < |ys| ==> ys[k] == xs[k + 1];
  }

  lemma OnlySepsTail(s: string)
    requires s != [] && s[0] == Sep
    ensures OnlySeps(s) <==> OnlySeps(s[1..])
  {
    assert forall j :: 0 <= j < |s| - 1 ==> s[1..][j] == s[j + 1];
  }

  /** Every fragment is empty exactly when the string is made of separators only. */
  lemma {:induction false} SplitAllEmptyFragments(s: string)
    ensures OnlySeps(s) <==> EmptyFrom(SplitAll(s), 0)
    decreases |s|
  {
    if Sep !in s {
      if s != [] {
        assert s[0] != Sep;
        assert SplitAll(s)[0] != [];
      }
    } else {
      var i := IndexOfSep(s);
      SplitAllEmptyFragments(s[i + 1..]);
      EmptyFromCons(s[..i], SplitAll(s[i + 1..]), 0);
      if i == 0 {
        OnlySepsTail(s);
      } else {
        assert s[0] == s[..i][0];
        assert SplitAll(s)[0] == s[..i];
      }
    }
  }

  /** Stripping leaves at least two fragments exactly when a later fragment is non-empty. */
  lemma StripKeepsTwo(xs: seq<string>)
    ensures |StripTrailingEmpty(xs)| >= 2 <==> !EmptyFrom(xs, 1)
  {
    var r := StripTrailingEmpty(xs);
    StripFacts(xs);
    if |r| >= 2 {
      assert xs[|r| - 1] == r[|r| - 1];
    }
  }

  /**
   * parameterMap fails on a token exactly when no character other than a separator follows
   * its first separator: no separator at all, or `a=`, `a==`, `=`.
   */
  lemma AssignmentDefined(t: string)
    ensures Assignment(t).Some? <==> Sep in t && !OnlySeps(t[IndexOfSep(t) + 1..])
  {
    if Sep in t {
      var u := t[IndexOfSep(t) + 1..];
      var xs := [t[..IndexOfSep(t)]] + SplitAll(u);
      assert JavaSplit(t) == StripTrailingEmpty(xs);
      StripKeepsTwo(xs);
      EmptyFromCons(t[..IndexOfSep(t)], SplitAll(u), 0);
      SplitAllEmptyFragments(u);
    }
  }

  /** The text up to the first separator, or all of it. */
  function UpToSep(u: string): (r: string)
    ensures r <= u && Sep !in r
    ensures |r| < |u| ==> u[|r|] == Sep
  {
    if Sep in u then u[..IndexOfSep(u)] else u
  }

  /** An accepted token's key and value are its first two fragments. */
  lemma AssignmentFragments(t: string)
    requires Assignment(t).Some?
    ensures Sep in t
    ensures Assignment(t).value == Parameter(t[..IndexOfSep(t)], UpToSep(t[IndexOfSep(t) + 1..]))
  {
    AssignmentDefined(t);
    var i := IndexOfSep(t);
    var xs := [t[..i]] + SplitAll(t[i + 1..]);
    StripFacts(xs);
  }

  /**
   * What parameterMap reads from a token it accepts: the key is the text before the first
   * separator and the value the text between the first and the second separator (or the
   * end), so `a==c` gives the empty value and `a=b=c` drops `=c`.
   */
  lemma AssignmentShape(t: string)
    requires Assignment(t).Some?
    ensures var p := Assignment(t).value;
            var n := |p.key| + 1 + |p.value|;
            && Sep !in p.key && Sep !in p.value
            && n <= |t| && t[..n] == p.key + [Sep] + p.value
            && (n == |t| || t[n] == Sep)
  {
    AssignmentFragments(t);
    FirstTwoFragments(t);
  }

  /** The first two fragments and the separator between them are a prefix of the token. */
  lemma {:induction false} FirstTwoFragments(t: string)
    requires Sep in t
    ensures var k := t[..IndexOfSep(t)];
            var v := UpToSep(t[IndexOfSep(t) + 1..]);
            var n := |k| + 1 + |v|;
            && Sep !in k && Sep !in v
            && n <= |t| && t[..n] == k + [Sep] + v
            && (n == |t| || t[n] == Sep)
  {
    SplitPrefix(t, IndexOfSep(t), UpToSep(t[IndexOfSep(t) + 1..]));
  }

  /**
   * The text before a first separator at `i`, that separator and a separator-free prefix `v`
   * of the rest that stops at a separator or the end: together a prefix of the token,
   * followed by a separator or the end.
   */
  lemma {:induction false} SplitPrefix(t: string, i: nat, v: string)
    requires i < |t| && t[i] == Sep && Sep !in t[..i]
    requires v <= t[i + 1..] && Sep !in v && (|v| < |t[i + 1..]| ==> t[i + 1..][|v|] == Sep)
    ensures var n := i + 1 + |v|;
            && n <= |t| && t[..n] == t[..i] + [Sep] + v
            && (n == |t| || t[n] == Sep)
  {
    var n := i + 1 + |v|;
    assert t[..n] == t[..i] + [t[i]] + t[i + 1..n];
    assert t[i + 1..n] == t[i + 1..][..|v|];
    if n < |t| {
      assert t[n] == t[i + 1..][|v|];
    }
  }

  /** A token `k=v` with a non-empty value and no other separator is read back as (k, v). */
  lemma AssignmentOfPair(k: string, v: string)
    requires Sep !in k && Sep !in v && v != []
    ensures Assignment(k + [Sep] + v) == Some(Parameter(k, v))
  {
    var t := k + [Sep] + v;
    assert t[|k|] == Sep && t[..|k|] == k && t[|k| + 1..] == v;
    assert SplitAll(t) == [k, v];
  }

  /** Every token of the list is accepted by `parse`. */
  predicate AllParse(parse: string -> Option<Parameter>, tokens: seq<string>) {
    forall i :: 0 <= i < |tokens| ==> parse(tokens[i]).Some?
  }

  /** The parameters `parse` reads from a list of tokens it accepts, in order. */
  function ParsedBy(parse: string -> Option<Parameter>, tokens: seq<string>): seq<Parameter>
    requires AllParse(parse, tokens)
  {
    if tokens == [] then []
    else ParsedBy(parse, tokens[..|tokens| - 1]) + [parse(tokens[|tokens| - 1]).value]
  }

  /** One more accepted token adds its parameter at the end. */
  lemma {:induction false} ParsedBySnoc(parse: string -> Option<Parameter>, ts: seq<string>, t: string)
    requires AllParse(parse, ts) && parse(t).Some?
    ensures AllParse(parse, ts + [t])
    ensures ParsedBy(parse, ts + [t]) == ParsedBy(parse, ts) + [parse(t).value]
  {
    assert (ts + [t])[..|ts|] == ts;
  }

  /** One more accepted token puts its key and value into the map built so far. */
  lemma {:induction false} ParameterMapStep(parse: string -> Option<Parameter>, tokens: seq<string>,
                                            i: int, results: map<string, string>)
    requires 0 <= i < |tokens| && AllParse(parse, tokens[..i]) && parse(tokens[i]).Some?
    requires results == ToMap(ParsedBy(parse, tokens[..i]))
    ensures AllParse(parse, tokens[..i + 1])
    ensures var p := parse(tokens[i]).value;
            results[p.key := p.value] == ToMap(ParsedBy(parse, tokens[..i + 1]))
  {
    var ts, t := tokens[..i], tokens[i];
    ParsedBySnoc(parse, ts, t);
    assert tokens[..i + 1] == ts + [t];
    ToMapSnoc(ParsedBy(parse, ts), parse(t).value);
  }

  /**
   * parameterMap: puts each token's key and value into a fresh map, so later tokens overwrite
   * earlier ones with the same key. The first token without a second fragment aborts the
   * whole call (ArrayIndexOutOfBoundsException); the failure carries that token.
   */
  method ParameterMap(tokens: seq<string>) returns (r: Result<map<string, string>, string>)
    ensures r.Success? <==> AllParse(Assignment, tokens)
    ensures r.Success? ==> r.value == ToMap(ParsedBy(Assignment, tokens))
    ensures r.Failure? ==>
              exists i :: 0 <= i < |tokens| && r.error == tokens[i] && Assignment(tokens[i]).None?
                          && AllParse(Assignment, tokens[..i])
  {
    var results: map<string, string> := map[];
    var i := 0;
    while i < |tokens|
      invariant 0 <= i <= |tokens|
      invariant AllParse(Assignment, tokens[..i])
      invariant results == ToMap(ParsedBy(Assignment, tokens[..i]))
    {
      var keyValue := Assignment(tokens[i]);
      if keyValue.None? {
        return Failure(tokens[i]);
      }
      ParameterMapStep(Assignment, tokens, i, results);
      results := results[keyValue.value.key := keyValue.value.value];
      i := i + 1;
    }
    assert tokens[..i] == tokens;
    return Success(results);
  }
}
