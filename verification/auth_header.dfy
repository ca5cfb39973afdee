/**
  The challenge parser of KeyVaultClient/KeyVault/AuthHeader.swift (`parse`): a table-driven
  state machine over the items of `AuthHeaderItems.Tokenize` that builds a map from scheme to
  a map of parameters.

  `Feed` is one iteration of the loop, `Run` the loop over a list of items, and `ParseHeader`
  the whole function; `Parse` is the loop itself, proved equal to `ParseHeader`. The lemmas
  relate the machine to a grammar of challenges (`ChallengeItems`): a single well-formed
  challenge gives the expected map, and a second challenge loses the name that follows its
  scheme.
*/
module AuthHeader {
  import opened Outcomes
  import opened AuthHeaderItems

  datatype AuthHeaderError = EmptyString | InvalidHeader

  type Params = map<string, string>
  type Challenges = map<string, Params>

  datatype ParserState =
    | LookingForChallenge
    | LookingForParam
    | LookingForEquals(key: string)
    | LookingForValue(key: string)
    | LookingForComma
    | LookingForChallengeOrParam
    | LookingForEqualsOrParam(name: string)

  /** The loop variables of `parse`. */
  datatype Machine = Machine(state: ParserState, result: Challenges, curChallenge: Option<string>, curParams: Params)

  const Start := Machine(LookingForChallenge, map[], None, map[])

  /** Once the first item is read, a challenge is current (the source unwraps it with `!`). */
  predicate Valid(m: Machine) {
    m.state.LookingForChallenge? || m.curChallenge.Some?
  }

  predicate IsDelimiter(item: string) {
    item == "=" || item == ","
  }

  /** One iteration of the loop (AuthHeader.swift:150-181). */
  function Feed(m: Machine, item: string): (r: Result<Machine, AuthHeaderError>)
    requires Valid(m)
    ensures r.Ok? ==> Valid(r.value)
  {
    match m.state
    case LookingForChallenge =>
      if IsDelimiter(item) then Err(InvalidHeader)
      else Ok(m.(curChallenge := Some(item), state := LookingForParam))
    case LookingForParam =>
      if IsDelimiter(item) then Err(InvalidHeader)
      else Ok(m.(state := LookingForEquals(item)))
    case LookingForEquals(key) =>
      if item != "=" then Err(InvalidHeader)
      else Ok(m.(state := LookingForValue(key)))
    case LookingForValue(key) =>
      if IsDelimiter(item) then Err(InvalidHeader)
      else Ok(m.(curParams := m.curParams[key := item], state := LookingForComma))
    case LookingForComma =>
      if item != "," then Err(InvalidHeader)
      else Ok(m.(state := LookingForChallengeOrParam))
    case LookingForChallengeOrParam =>
      if IsDelimiter(item) then Err(InvalidHeader)
      else Ok(m.(state := LookingForEqualsOrParam(item)))
    case LookingForEqualsOrParam(name) =>
      if item == "," then Err(InvalidHeader)
      else if item == "=" then Ok(m.(state := LookingForValue(name)))
      else
        // The remembered name becomes the new scheme and `item` itself is dropped.
        Ok(Machine(LookingForParam, m.result[m.curChallenge.value := m.curParams], Some(name), map[]))
  }

  /** The loop over `items`, stopping at the first rejected item. */
  function Run(m: Machine, items: seq<string>): (r: Result<Machine, AuthHeaderError>)
    requires Valid(m)
    ensures r.Ok? ==> Valid(r.value)
    ensures r.Err? ==> r.error == InvalidHeader
    decreases |items|
  {
    if items == [] then Ok(m)
    else
      match Feed(m, items[0])
      case Err(e) => Err(e)
      case Ok(next) => Run(next, items[1..])
  }

  /** After the loop: the current challenge, if any, gets its parameters (lines 184-189). */
  function Finish(m: Machine): Challenges {
    match m.curChallenge
    case None => map[]
    case Some(challenge) => m.result[challenge := m.curParams]
  }

  function ParseItems(items: seq<string>): Result<Challenges, AuthHeaderError> {
    if items == [] then Ok(map[])
    else
      match Run(Start, items)
      case Err(e) => Err(e)
      case Ok(m) => Ok(Finish(m))
  }

  /** `parse`: a blank header is refused before it is tokenized; nothing else gives that error. */
  function ParseHeader(h: string): (r: Result<Challenges, AuthHeaderError>)
    ensures r == Err(EmptyString) <==> !IsNotBlankOrEmpty(h)
    ensures r.Err? ==> r.error == EmptyString || r.error == InvalidHeader
  {
    if !IsNotBlankOrEmpty(h) then Err(EmptyString)
    else ParseItems(Tokenize(h))
  }

  /** Running over `a + b` is running over `a`, then over `b` if `a` was accepted. */
  lemma {:induction false} RunAppend(m: Machine, a: seq<string>, b: seq<string>)
    requires Valid(m)
    ensures Run(m, a).Err? ==> Run(m, a + b) == Run(m, a)
    ensures Run(m, a).Ok? ==> Run(m, a + b) == Run(Run(m, a).value, b)
    decreases |a|
  {
    if a != [] {
      assert (a + b)[0] == a[0] && (a + b)[1..] == a[1..] + b;
      match Feed(m, a[0])
      case Err(_) =>
      case Ok(next) => RunAppend(next, a[1..], b);
    } else {
      assert a + b == b;
    }
  }

  lemma RunOne(m: Machine, item: string)
    requires Valid(m)
    ensures Run(m, [item]) == Feed(m, item)
  {
    assert [item][1..] == [];
  }

  /** One more item: the run over the longer prefix is one `Feed`, and a rejection is final. */
  lemma RunPrefixStep(items: seq<string>, i: nat, m: Machine)
    requires i < |items| && Valid(m) && Run(Start, items[..i]) == Ok(m)
    ensures Feed(m, items[i]).Ok? ==> Run(Start, items[..i + 1]) == Feed(m, items[i])
    ensures Feed(m, items[i]).Err? ==> Run(Start, items) == Err(InvalidHeader)
  {
    var before, after := items[..i], items[..i + 1];
    RunAppend(Start, before, [items[i]]);
    assert after == before + [items[i]];
    RunOne(m, items[i]);
    if Feed(m, items[i]).Err? {
      RunAppend(Start, after, items[i + 1..]);
      assert after + items[i + 1..] == items;
    }
  }

  /** `parse` (AuthHeader.swift:133-190), with the loop and variables of the source. */
  method Parse(authHeader: string) returns (r: Result<Challenges, AuthHeaderError>)
    ensures r == ParseHeader(authHeader)
  {
    if !IsNotBlankOrEmpty(authHeader) {
      return Err(EmptyString);
    }

    var items := ExtractItems(authHeader);
    if |items| == 0 {
      return Ok(map[]);
    }

    var result: Challenges := map[];
    var curChallenge: Option<string> := None;
    var curParams: Params := map[];
    var state := LookingForChallenge;

    for i := 0 to |items|
      invariant Valid(Machine(state, result, curChallenge, curParams))
      invariant Run(Start, items[..i]) == Ok(Machine(state, result, curChallenge, curParams))
    {
      var item := items[i];
      ghost var m := Machine(state, result, curChallenge, curParams);
      RunPrefixStep(items, i, m);
      match state {
        case LookingForChallenge =>
          if item == "=" || item == "," { return Err(InvalidHeader); }
          curChallenge := Some(item);
          state := LookingForParam;
        case LookingForParam =>
          if item == "=" || item == "," { return Err(InvalidHeader); }
          state := LookingForEquals(item);
        case LookingForEquals(key) =>
          if item != "=" { return Err(InvalidHeader); }
          state := LookingForValue(key);
        case LookingForValue(key) =>
          if item == "=" || item == "," { return Err(InvalidHeader); }
          curParams := curParams[key := item];
          state := LookingForComma;
        case LookingForComma =>
          if item != "," { return Err(InvalidHeader); }
          state := LookingForChallengeOrParam;
        case LookingForChallengeOrParam =>
          if item == "=" || item == "," { return Err(InvalidHeader); }
          state := LookingForEqualsOrParam(item);
        case LookingForEqualsOrParam(challengeOrParam) =>
          if item == "," { return Err(InvalidHeader); }
          if item == "=" {
            state := LookingForValue(challengeOrParam);
          } else {
            result := result[curChallenge.value := curParams];
            curParams := map[];
            curChallenge := Some(challengeOrParam);
            state := LookingForParam;
          }
      }
      assert Feed(m, item) == Ok(Machine(state, result, curChallenge, curParams));
    }
    assert items[..|items|] == items;

    match curChallenge {
      case None => return Ok(map[]);
      case Some(challenge) =>
        result := result[challenge := curParams];
        return Ok(result);
    }
  }

  // A grammar of challenges, to state what the machine accepts.

  /** A parameter `key=value` of a challenge. */
  datatype Param = Param(key: string, value: string)

  predicate IsAtom(item: string) {
    !IsDelimiter(item)
  }

  predicate AtomParams(ps: seq<Param>) {
    forall p :: p in ps ==> IsAtom(p.key) && IsAtom(p.value)
  }

  /** The items of `k1 = v1 , k2 = v2 ...`, as section 2.1 of RFC 7235 writes a parameter list. */
  function ParamItems(ps: seq<Param>): seq<string>
    decreases |ps|
  {
    if |ps| == 0 then []
    else if |ps| == 1 then [ps[0].key, "=", ps[0].value]
    else ParamItems(ps[..|ps| - 1]) + [",", ps[|ps| - 1].key, "=", ps[|ps| - 1].value]
  }

  /** The items of one challenge: its scheme, then its parameters. */
  function ChallengeItems(scheme: string, ps: seq<Param>): seq<string> {
    [scheme] + ParamItems(ps)
  }

  /** The parameters as a map in which a later key overrides an earlier one. */
  function ParamMap(ps: seq<Param>): Params
    decreases |ps|
  {
    if |ps| == 0 then map[]
    else ParamMap(ps[..|ps| - 1])[ps[|ps| - 1].key := ps[|ps| - 1].value]
  }

  /** A repeated key keeps the value of its last occurrence. */
  lemma {:induction false} LastValueWins(ps: seq<Param>, i: nat)
    requires i < |ps| && forall j :: i < j < |ps| ==> ps[j].key != ps[i].key
    ensures ps[i].key in ParamMap(ps) && ParamMap(ps)[ps[i].key] == ps[i].value
    decreases |ps|
  {
    if i < |ps| - 1 {
      var init := ps[..|ps| - 1];
      assert init[i] == ps[i];
      LastValueWins(init, i);
    }
  }

  /** Every key given, and no other, is a key of the map. */
  lemma {:induction false} ParamMapKeys(ps: seq<Param>)
    ensures ParamMap(ps).Keys == set p | p in ps :: p.key
    decreases |ps|
  {
    if |ps| > 0 {
      var init := ps[..|ps| - 1];
      ParamMapKeys(init);
      assert ps == init + [ps[|ps| - 1]];
    }
  }

  lemma {:induction false} ParamItemsStart(ps: seq<Param>)
    requires |ps| > 0
    ensures |ParamItems(ps)| >= 3 && ParamItems(ps)[0] == ps[0].key && ParamItems(ps)[1] == "="
    decreases |ps|
  {
    if |ps| > 1 {
      var init := ps[..|ps| - 1];
      ParamItemsStart(init);
    }
  }

  /** The first parameter `k = v` of a challenge. */
  lemma RunFirstParam(m: Machine, p: Param)
    requires m.state == LookingForParam && m.curChallenge.Some? && IsAtom(p.key) && IsAtom(p.value)
    ensures Run(m, [p.key, "=", p.value]) == Ok(m.(state := LookingForComma, curParams := m.curParams[p.key := p.value]))
  {
    var m1 := m.(state := LookingForEquals(p.key));
    var m2 := m.(state := LookingForValue(p.key));
    assert Run(m, [p.key, "=", p.value]) == Run(m1, ["=", p.value]);
    assert Run(m1, ["=", p.value]) == Run(m2, [p.value]);
    RunOne(m2, p.value);
  }

  /** A further parameter `, k = v` of a challenge. */
  lemma RunNextParam(m: Machine, p: Param)
    requires m.state == LookingForComma && m.curChallenge.Some? && IsAtom(p.key) && IsAtom(p.value)
    ensures Run(m, [",", p.key, "=", p.value]) == Ok(m.(curParams := m.curParams[p.key := p.value]))
  {
    var m1 := m.(state := LookingForChallengeOrParam);
    var m2 := m.(state := LookingForEqualsOrParam(p.key));
    var m3 := m.(state := LookingForValue(p.key));
    assert Run(m, [",", p.key, "=", p.value]) == Run(m1, [p.key, "=", p.value]);
    assert Run(m1, [p.key, "=", p.value]) == Run(m2, ["=", p.value]);
    assert Run(m2, ["=", p.value]) == Run(m3, [p.value]);
    RunOne(m3, p.value);
  }

  /** Right after a scheme, a well-formed parameter list fills the parameters of the challenge. */
  lemma {:induction false} RunParams(m: Machine, ps: seq<Param>)
    requires m.state == LookingForParam && m.curChallenge.Some? && m.curParams == map[] && AtomParams(ps)
    ensures Run(m, ParamItems(ps))
         == Ok(m.(state := if ps == [] then LookingForParam else LookingForComma, curParams := ParamMap(ps)))
    decreases |ps|
  {
    if |ps| == 1 {
      assert ps[0] in ps;
      RunFirstParam(m, ps[0]);
    } else if |ps| > 1 {
      var init, p := ps[..|ps| - 1], ps[|ps| - 1];
      assert p in ps;
      RunParams(m, init);
      RunAppend(m, ParamItems(init), [",", p.key, "=", p.value]);
      RunNextParam(m.(state := LookingForComma, curParams := ParamMap(init)), p);
    }
  }

  /** The machine after the items of one well-formed challenge. */
  lemma RunChallenge(scheme: string, ps: seq<Param>)
    requires IsAtom(scheme) && AtomParams(ps)
    ensures Run(Start, ChallengeItems(scheme, ps))
         == Ok(Machine(if ps == [] then LookingForParam else LookingForComma, map[], Some(scheme), ParamMap(ps)))
  {
    var m := Machine(LookingForParam, map[], Some(scheme), map[]);
    RunAppend(Start, [scheme], ParamItems(ps));
    assert Run(Start, [scheme]) == Ok(m);
    RunParams(m, ps);
  }

  /** `Bearer k1="v1", k2=v2` gives `{Bearer: {k1: v1, k2: v2}}`; a bare scheme gives `{Bearer: {}}`. */
  lemma SingleChallenge(scheme: string, ps: seq<Param>)
    requires IsAtom(scheme) && AtomParams(ps)
    ensures ParseItems(ChallengeItems(scheme, ps)) == Ok(map[scheme := ParamMap(ps)])
  {
    RunChallenge(scheme, ps);
  }

  /** A trailing comma after a challenge is dropped without error. */
  lemma TrailingCommaDropped(scheme: string, ps: seq<Param>)
    requires IsAtom(scheme) && AtomParams(ps) && ps != []
    ensures ParseItems(ChallengeItems(scheme, ps) + [","]) == Ok(map[scheme := ParamMap(ps)])
  {
    RunChallenge(scheme, ps);
    RunAppend(Start, ChallengeItems(scheme, ps), [","]);
  }

  /** A trailing name with no `=` and no value is dropped without error. */
  lemma TrailingNameDropped(scheme: string, ps: seq<Param>, name: string)
    requires IsAtom(scheme) && AtomParams(ps) && IsAtom(name)
    ensures var tail := if ps == [] then [name] else [",", name];
            ParseItems(ChallengeItems(scheme, ps) + tail) == Ok(map[scheme := ParamMap(ps)])
  {
    var tail := if ps == [] then [name] else [",", name];
    RunChallenge(scheme, ps);
    RunAppend(Start, ChallengeItems(scheme, ps), tail);
    var m := Machine(if ps == [] then LookingForParam else LookingForComma, map[], Some(scheme), ParamMap(ps));
    if ps == [] {
      assert Run(m, tail) == Run(m.(state := LookingForEquals(name)), []);
    } else {
      assert Run(m, tail) == Run(m.(state := LookingForChallengeOrParam), [name]);
      assert Run(m.(state := LookingForChallengeOrParam), [name]) == Run(m.(state := LookingForEqualsOrParam(name)), []);
    }
  }

  /** A trailing key with `=` but no value is dropped without error: `Bearer a=b, c=` gives `{Bearer: {a: b}}`. */
  lemma TrailingKeyDropped(scheme: string, ps: seq<Param>, key: string)
    requires IsAtom(scheme) && AtomParams(ps) && IsAtom(key)
    ensures var tail := if ps == [] then [key, "="] else [",", key, "="];
            ParseItems(ChallengeItems(scheme, ps) + tail) == Ok(map[scheme := ParamMap(ps)])
  {
    var tail := if ps == [] then [key, "="] else [",", key, "="];
    RunChallenge(scheme, ps);
    RunAppend(Start, ChallengeItems(scheme, ps), tail);
    var m := Machine(if ps == [] then LookingForParam else LookingForComma, map[], Some(scheme), ParamMap(ps));
    if ps == [] {
      assert Run(m, tail) == Run(m.(state := LookingForEquals(key)), ["="]);
      assert Run(m.(state := LookingForEquals(key)), ["="]) == Run(m.(state := LookingForValue(key)), []);
    } else {
      assert Run(m, tail) == Run(m.(state := LookingForChallengeOrParam), [key, "="]);
      assert Run(m.(state := LookingForChallengeOrParam), [key, "="]) == Run(m.(state := LookingForEqualsOrParam(key)), ["="]);
      assert Run(m.(state := LookingForEqualsOrParam(key)), ["="]) == Run(m.(state := LookingForValue(key)), []);
    }
  }

  /**
    A name after a comma followed by another name starts a new challenge, and that following
    name is lost: `s1 k=v, s2 x k2=v2` gives `{s1: {k: v}, s2: {k2: v2}}`.
  */
  lemma SecondSchemeLosesNextName(s1: string, ps1: seq<Param>, s2: string, x: string, ps2: seq<Param>)
    requires IsAtom(s1) && AtomParams(ps1) && ps1 != [] && IsAtom(s2) && IsAtom(x) && AtomParams(ps2)
    ensures ParseItems(ChallengeItems(s1, ps1) + [",", s2, x] + ParamItems(ps2))
         == Ok(map[s1 := ParamMap(ps1)][s2 := ParamMap(ps2)])
  {
    var first := ChallengeItems(s1, ps1);
    RunChallenge(s1, ps1);
    RunAppend(Start, first, [",", s2, x]);
    var m1 := Machine(LookingForComma, map[], Some(s1), ParamMap(ps1));
    var m2 := Machine(LookingForParam, map[s1 := ParamMap(ps1)], Some(s2), map[]);
    assert Run(m1, [",", s2, x]) == Ok(m2) by {
      assert Run(m1, [",", s2, x]) == Run(m1.(state := LookingForChallengeOrParam), [s2, x]);
      assert Run(m1.(state := LookingForChallengeOrParam), [s2, x])
          == Run(m1.(state := LookingForEqualsOrParam(s2)), [x]);
      assert Run(m1.(state := LookingForEqualsOrParam(s2)), [x]) == Run(m2, []);
    }
    RunAppend(Start, first + [",", s2, x], ParamItems(ps2));
    RunParams(m2, ps2);
  }

  /**
    Two well-formed challenges are refused: the second scheme is first taken for a parameter
    name; the first parameter name after it then makes it the new scheme and is itself dropped,
    and the `=` that follows is out of place where a parameter name is expected.
  */
  lemma SecondChallengeRejected(s1: string, ps1: seq<Param>, s2: string, ps2: seq<Param>)
    requires IsAtom(s1) && AtomParams(ps1) && ps1 != [] && IsAtom(s2) && AtomParams(ps2) && ps2 != []
    ensures ParseItems(ChallengeItems(s1, ps1) + [","] + ChallengeItems(s2, ps2)) == Err(InvalidHeader)
  {
    var first, second := ChallengeItems(s1, ps1), ParamItems(ps2);
    ParamItemsStart(ps2);
    var k := ps2[0].key;
    assert ps2[0] in ps2;
    var rest := second[2..];
    assert second == [k, "="] + rest;
    var items := first + [",", s2, k, "="] + rest;
    assert first + [","] + ChallengeItems(s2, ps2) == items;
    RunChallenge(s1, ps1);
    RunAppend(Start, first, [",", s2, k, "="]);
    var m1 := Machine(LookingForComma, map[], Some(s1), ParamMap(ps1));
    var m2 := m1.(state := LookingForChallengeOrParam);
    var m3 := m1.(state := LookingForEqualsOrParam(s2));
    var m4 := Machine(LookingForParam, map[s1 := ParamMap(ps1)], Some(s2), map[]);
    assert Run(m1, [",", s2, k, "="]) == Run(m2, [s2, k, "="]);
    assert Run(m2, [s2, k, "="]) == Run(m3, [k, "="]);
    assert Run(m3, [k, "="]) == Run(m4, ["="]);
    RunAppend(Start, first + [",", s2, k, "="], rest);
  }

  /** `=` or `,` where the scheme is expected is refused. */
  lemma DelimiterFirstRejected(d: string, rest: seq<string>)
    requires IsDelimiter(d)
    ensures ParseItems([d] + rest) == Err(InvalidHeader)
  {
    RunAppend(Start, [d], rest);
  }

  /** The items `pre` leave the machine just after a scheme, waiting for a parameter name. */
  predicate AfterScheme(pre: seq<string>) {
    Run(Start, pre).Ok? && Run(Start, pre).value.state == LookingForParam
  }

  /**
    A scheme is followed by its first parameter name: after the first item, and after a name
    that follows a comma and is itself followed by another name (`SecondSchemeLosesNextName`).
  */
  lemma SchemeEnds(s1: string, ps1: seq<Param>, s2: string, x: string)
    requires IsAtom(s1) && AtomParams(ps1) && ps1 != [] && IsAtom(s2) && IsAtom(x)
    ensures AfterScheme([s1])
    ensures AfterScheme(ChallengeItems(s1, ps1) + [",", s2, x])
  {
    RunChallenge(s1, ps1);
    RunAppend(Start, ChallengeItems(s1, ps1), [",", s2, x]);
    var m1 := Machine(LookingForComma, map[], Some(s1), ParamMap(ps1));
    assert Run(m1, [",", s2, x]) == Run(m1.(state := LookingForChallengeOrParam), [s2, x]);
    assert Run(m1.(state := LookingForChallengeOrParam), [s2, x]) == Run(m1.(state := LookingForEqualsOrParam(s2)), [x]);
    assert Run(m1.(state := LookingForEqualsOrParam(s2)), [x])
        == Run(Machine(LookingForParam, map[s1 := ParamMap(ps1)], Some(s2), map[]), []);
    assert Run(Start, [s1]) == Run(Start.(curChallenge := Some(s1), state := LookingForParam), []);
  }

  /** `=` or `,` where the first parameter name of a challenge is expected is refused. */
  lemma DelimiterAfterSchemeRejected(pre: seq<string>, d: string, rest: seq<string>)
    requires AfterScheme(pre) && IsDelimiter(d)
    ensures ParseItems(pre + [d] + rest) == Err(InvalidHeader)
  {
    RunAppend(Start, pre, [d] + rest);
    assert pre + [d] + rest == pre + ([d] + rest);
    assert Run(Run(Start, pre).value, [d] + rest) == Feed(Run(Start, pre).value, d);
  }

  /** Anything but `=` after the first parameter name of a challenge is refused. */
  lemma NameWithoutEqualsRejected(pre: seq<string>, key: string, x: string, rest: seq<string>)
    requires AfterScheme(pre) && IsAtom(key) && x != "="
    ensures ParseItems(pre + [key, x] + rest) == Err(InvalidHeader)
  {
    var m := Run(Start, pre).value;
    RunAppend(Start, pre, [key, x] + rest);
    assert pre + [key, x] + rest == pre + ([key, x] + rest);
    assert Run(m, [key, x] + rest) == Run(m.(state := LookingForEquals(key)), [x] + rest);
  }

  /** The items `pre` leave the machine just after a parameter's `=`, waiting for its value. */
  predicate AtValue(pre: seq<string>) {
    Run(Start, pre).Ok? && Run(Start, pre).value.state.LookingForValue?
  }

  /** The items `pre` leave the machine just after a parameter's value, waiting for a comma. */
  predicate AfterValue(pre: seq<string>) {
    Run(Start, pre).Ok? && Run(Start, pre).value.state == LookingForComma
  }

  /** The items `pre` leave the machine just after the comma that ends a parameter. */
  predicate AfterComma(pre: seq<string>) {
    Run(Start, pre).Ok? && Run(Start, pre).value.state == LookingForChallengeOrParam
  }

  /** The items `pre` leave the machine just after a name that follows a comma. */
  predicate AfterCommaName(pre: seq<string>) {
    Run(Start, pre).Ok? && Run(Start, pre).value.state.LookingForEqualsOrParam?
  }

  /**
    A value is expected after the `=` of a challenge's first parameter, and after the `=` of a
    parameter that follows a comma.
  */
  lemma ValueStarts(s: string, ps: seq<Param>, k: string)
    requires IsAtom(s) && AtomParams(ps) && ps != [] && IsAtom(k)
    ensures AtValue([s, k, "="])
    ensures AtValue(ChallengeItems(s, ps) + [",", k, "="])
  {
    var m0 := Start.(curChallenge := Some(s), state := LookingForParam);
    assert Run(Start, [s, k, "="]) == Run(m0, [k, "="]);
    assert Run(m0, [k, "="]) == Run(m0.(state := LookingForEquals(k)), ["="]);
    var m1 := Machine(LookingForComma, map[], Some(s), ParamMap(ps));
    RunChallenge(s, ps);
    RunAppend(Start, ChallengeItems(s, ps), [",", k, "="]);
    assert Run(m1, [",", k, "="]) == Run(m1.(state := LookingForChallengeOrParam), [k, "="]);
    assert Run(m1.(state := LookingForChallengeOrParam), [k, "="]) == Run(m1.(state := LookingForEqualsOrParam(k)), ["="]);
  }

  /** After any scheme, including one started by the swallowed-name path, `k =` leads to a value. */
  lemma ValueAfterScheme(pre: seq<string>, k: string)
    requires AfterScheme(pre) && IsAtom(k)
    ensures AtValue(pre + [k, "="])
  {
    var m := Run(Start, pre).value;
    RunAppend(Start, pre, [k, "="]);
    assert Run(m, [k, "="]) == Run(m.(state := LookingForEquals(k)), ["="]);
  }

  /** After a well-formed challenge come its comma, then a name. */
  lemma CommaStates(s: string, ps: seq<Param>, n: string)
    requires IsAtom(s) && AtomParams(ps) && ps != [] && IsAtom(n)
    ensures AfterValue(ChallengeItems(s, ps))
    ensures AfterComma(ChallengeItems(s, ps) + [","])
    ensures AfterCommaName(ChallengeItems(s, ps) + [",", n])
  {
    var m1 := Machine(LookingForComma, map[], Some(s), ParamMap(ps));
    RunChallenge(s, ps);
    RunAppend(Start, ChallengeItems(s, ps), [","]);
    RunAppend(Start, ChallengeItems(s, ps), [",", n]);
    assert Run(m1, [",", n]) == Run(m1.(state := LookingForChallengeOrParam), [n]);
  }

  /** `=` or `,` where a value is expected is refused. */
  lemma DelimiterAsValueRejected(pre: seq<string>, d: string, rest: seq<string>)
    requires AtValue(pre) && IsDelimiter(d)
    ensures ParseItems(pre + [d] + rest) == Err(InvalidHeader)
  {
    RunAppend(Start, pre, [d] + rest);
    assert pre + [d] + rest == pre + ([d] + rest);
    assert Run(Run(Start, pre).value, [d] + rest) == Feed(Run(Start, pre).value, d);
  }

  /** Anything but `,` after a value is refused. */
  lemma ValueWithoutCommaRejected(pre: seq<string>, x: string, rest: seq<string>)
    requires AfterValue(pre) && x != ","
    ensures ParseItems(pre + [x] + rest) == Err(InvalidHeader)
  {
    RunAppend(Start, pre, [x] + rest);
    assert pre + [x] + rest == pre + ([x] + rest);
    assert Run(Run(Start, pre).value, [x] + rest) == Feed(Run(Start, pre).value, x);
  }

  /** `=` or `,` right after the comma that ends a parameter is refused. */
  lemma DelimiterAfterCommaRejected(pre: seq<string>, d: string, rest: seq<string>)
    requires AfterComma(pre) && IsDelimiter(d)
    ensures ParseItems(pre + [d] + rest) == Err(InvalidHeader)
  {
    RunAppend(Start, pre, [d] + rest);
    assert pre + [d] + rest == pre + ([d] + rest);
    assert Run(Run(Start, pre).value, [d] + rest) == Feed(Run(Start, pre).value, d);
  }

  /** A `,` right after a name that follows a comma is refused. */
  lemma CommaAfterNameRejected(pre: seq<string>, rest: seq<string>)
    requires AfterCommaName(pre)
    ensures ParseItems(pre + [","] + rest) == Err(InvalidHeader)
  {
    RunAppend(Start, pre, [","] + rest);
    assert pre + [","] + rest == pre + ([","] + rest);
    assert Run(Run(Start, pre).value, [","] + rest) == Feed(Run(Start, pre).value, ",");
  }
}
