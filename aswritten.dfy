/**
 * The four OAuth handlers of app.py as written, reduced to what decides
 * whether they can run at all: the attribute reads and writes each makes on
 * its session object, and the calls it makes into the OAuth helpers, in
 * evaluation order.
 *
 * `SessionState` is a pydantic model. Writing an attribute that is not a
 * declared field raises ValueError, and reading one raises AttributeError.
 * A call that passes a keyword the callee does not declare raises TypeError
 * before the callee's body runs. The handlers use five session attributes
 * that the model does not declare, and two of them pass a `smart` keyword
 * that neither helper accepts. The lemmas below show where each handler
 * stops. The corrected versions (all nine attributes declared, no `smart`)
 * run every step; they are what `Session.SessionState` and the `App`
 * handlers model.
 */
module AsWritten {
  import opened Wrappers
  import opened Errors

  /** The session attributes the handlers touch. */
  datatype Field =
    | FhirToken | FhirOauthSession | FhirContext | JheToken
    | FhirApi | FhirOauthState | FhirCodeVerifier | JheOauthState | JheCodeVerifier

  /** The attribute's Python name. */
  function Name(f: Field): string
  {
    match f
    case FhirToken => "fhir_token"
    case FhirOauthSession => "fhir_oauth_session"
    case FhirContext => "fhir_context"
    case JheToken => "jhe_token"
    case FhirApi => "fhir_api"
    case FhirOauthState => "fhir_oauth_state"
    case FhirCodeVerifier => "fhir_code_verifier"
    case JheOauthState => "jhe_oauth_state"
    case JheCodeVerifier => "jhe_code_verifier"
  }

  /** The fields `SessionState` declares. */
  const Declared: set<Field> := {FhirToken, FhirOauthSession, FhirContext, JheToken}

  /** The fields a `SessionState` needs for the handlers to run. */
  const Corrected: set<Field> := Declared + {FhirApi, FhirOauthState, FhirCodeVerifier, JheOauthState, JheCodeVerifier}

  /** The parameter names of the two OAuth helpers, and the `smart` keyword the handlers pass. */
  datatype Arg =
    | OpenidBaseUri | ClientId | RedirectUri | Scope | ExtraParams
    | Code | ErrorArg | ErrorDescription | State | CheckState | CodeVerifier
    | SmartArg

  /** A parameter of a Python function: its name and whether it has a default. */
  datatype Param = Param(name: Arg, hasDefault: bool)

  /** One step of a handler: an attribute write, an attribute read, or a call. */
  datatype Step =
    | Set(field: Field)
    | Get(field: Field)
    | Call(params: seq<Param>, positional: nat, keywords: seq<Arg>)

  /** How far a handler gets: through every step, or stopped at `step` by `error`. */
  datatype Outcome = Completed | Failed(step: nat, error: Error)

  function Names(ps: seq<Param>): (r: seq<Arg>)
    ensures |r| == |ps| && forall i :: 0 <= i < |ps| ==> r[i] == ps[i].name
  {
    if ps == [] then [] else [ps[0].name] + Names(ps[1..])
  }

  /** The first keyword that is not among `allowed`, if any. */
  function FirstUnexpected(allowed: seq<Arg>, keywords: seq<Arg>): (r: Option<Arg>)
    ensures r.None? <==> forall k :: k in keywords ==> k in allowed
    ensures r.Some? ==> r.value in keywords && r.value !in allowed
  {
    if keywords == [] then None
    else if keywords[0] !in allowed then Some(keywords[0])
    else FirstUnexpected(allowed, keywords[1..])
  }

  /** The first parameter without a default that no keyword supplies, if any. */
  function FirstMissing(ps: seq<Param>, keywords: seq<Arg>): (r: Option<Arg>)
    ensures r.None? <==> forall i :: 0 <= i < |ps| && !ps[i].hasDefault ==> ps[i].name in keywords
    ensures r.Some? ==> r.value !in keywords
  {
    if ps == [] then None
    else if !ps[0].hasDefault && ps[0].name !in keywords then Some(ps[0].name)
    else FirstMissing(ps[1..], keywords)
  }

  /**
   * Python's argument binding: too many positional arguments, a keyword
   * that names no remaining parameter (unknown, or already filled by
   * position), or a parameter without a default left unfilled, is a
   * TypeError.
   */
  function Bind(ps: seq<Param>, positional: nat, keywords: seq<Arg>): (r: Result<(), Error>)
    ensures r.Err? ==> r.error.TypeError?
  {
    if positional > |ps| then Err(TypeError("too many positional arguments"))
    else match FirstUnexpected(Names(ps[positional..]), keywords)
      case Some(k) => Err(TypeError(if k in Names(ps) then "multiple values for an argument"
                                    else "unexpected keyword argument"))
      case None =>
        match FirstMissing(ps[positional..], keywords)
        case Some(p) => Err(TypeError("missing a required argument"))
        case None => Ok(())
  }

  /** A call binds exactly when the positional arguments fit, every keyword names a parameter they leave open, and every open parameter without a default gets a keyword. */
  lemma BindSucceeds(ps: seq<Param>, positional: nat, keywords: seq<Arg>)
    ensures Bind(ps, positional, keywords).Ok? <==>
      && positional <= |ps|
      && (forall k :: k in keywords ==> k in Names(ps[positional..]))
      && (forall i :: positional <= i < |ps| && !ps[i].hasDefault ==> ps[i].name in keywords)
  {
    if positional <= |ps| {
      assert forall i :: positional <= i < |ps| ==> ps[i] == ps[positional..][i - positional];
    }
  }

  /** One step against a model whose declared fields are `fields`. */
  function Exec(fields: set<Field>, s: Step): (r: Result<(), Error>)
    ensures s.Set? ==> (r.Ok? <==> s.field in fields)
    ensures s.Get? ==> (r.Ok? <==> s.field in fields)
    ensures s.Call? ==> r == Bind(s.params, s.positional, s.keywords)
  {
    match s
    case Set(f) => if f in fields then Ok(()) else Err(ValueError(Name(f)))
    case Get(f) => if f in fields then Ok(()) else Err(AttributeError(Name(f)))
    case Call(ps, n, kws) => Bind(ps, n, kws)
  }

  /** The steps in order, stopping at the first that raises; each call is taken to return. */
  function Run(fields: set<Field>, steps: seq<Step>): Outcome
  {
    if steps == [] then Completed
    else match Exec(fields, steps[0])
      case Err(e) => Failed(0, e)
      case Ok(_) =>
        match Run(fields, steps[1..])
        case Completed => Completed
        case Failed(i, e) => Failed(i + 1, e)
  }

  /** A handler whose first step raises stops there with that step's error. */
  lemma RunFirstFails(fields: set<Field>, steps: seq<Step>)
    requires steps != [] && Exec(fields, steps[0]).Err?
    ensures Run(fields, steps) == Failed(0, Exec(fields, steps[0]).error)
  {
  }

  /** A handler whose first step succeeds goes on with the rest, one step later. */
  lemma RunFirstPasses(fields: set<Field>, steps: seq<Step>, k: nat, e: Error)
    requires steps != [] && Exec(fields, steps[0]).Ok?
    requires Run(fields, steps[1..]) == Failed(k, e)
    ensures Run(fields, steps) == Failed(k + 1, e)
  {
  }

  /** A handler runs through exactly when each of its steps succeeds. */
  lemma {:induction false} RunCompletes(fields: set<Field>, steps: seq<Step>)
    ensures Run(fields, steps) == Completed <==> forall i :: 0 <= i < |steps| ==> Exec(fields, steps[i]).Ok?
  {
    if steps != [] {
      RunCompletes(fields, steps[1..]);
      assert forall i :: 1 <= i < |steps| ==> steps[i] == steps[1..][i - 1];
    }
  }

  /** A handler stops at the first step that raises, with that step's error, after every earlier step succeeded. */
  lemma {:induction false} RunStops(fields: set<Field>, steps: seq<Step>)
    ensures var o := Run(fields, steps);
      o.Failed? ==> o.step < |steps| && Exec(fields, steps[o.step]) == Err(o.error)
                    && forall i :: 0 <= i < o.step ==> Exec(fields, steps[i]).Ok?
  {
    if steps != [] && Exec(fields, steps[0]).Ok? {
      RunStops(fields, steps[1..]);
      assert forall i :: 1 <= i < |steps| ==> steps[i] == steps[1..][i - 1];
    }
  }

  /** An outcome seen from `n` steps earlier. */
  function Later(o: Outcome, n: nat): (r: Outcome)
    ensures r.Completed? <==> o.Completed?
    ensures o.Failed? ==> r.step == o.step + n && r.error == o.error
  {
    match o
    case Completed => Completed
    case Failed(i, e) => Failed(i + n, e)
  }

  /** Running `a + b` runs `a`, and if `a` stops, stops there; otherwise runs `b`, counting its steps after `a`'s. */
  lemma {:induction false} RunAppend(fields: set<Field>, a: seq<Step>, b: seq<Step>)
    ensures Run(fields, a + b) == if Run(fields, a).Failed? then Run(fields, a) else Later(Run(fields, b), |a|)
  {
    if a == [] {
      assert a + b == b;
    } else {
      assert (a + b)[0] == a[0];
      assert (a + b)[1..] == a[1..] + b;
      RunAppend(fields, a[1..], b);
    }
  }

  /** Steps after a prefix that stops are never reached. */
  lemma RunPrefixStops(fields: set<Field>, a: seq<Step>, b: seq<Step>)
    requires Run(fields, a).Failed?
    ensures Run(fields, a + b) == Run(fields, a)
  {
    RunAppend(fields, a, b);
  }

  /** After a prefix that completes, the run goes on with the rest, counting its steps after the prefix's. */
  lemma RunPrefixCompletes(fields: set<Field>, a: seq<Step>, b: seq<Step>)
    requires Run(fields, a) == Completed
    ensures Run(fields, a + b) == Later(Run(fields, b), |a|)
  {
    RunAppend(fields, a, b);
  }

  /** A run from step `k` completes when step `k` succeeds and the run from `k + 1` completes. */
  lemma RunFrom(fields: set<Field>, steps: seq<Step>, k: nat)
    requires k < |steps| && Exec(fields, steps[k]).Ok? && Run(fields, steps[k + 1..]) == Completed
    ensures Run(fields, steps[k..]) == Completed
  {
    assert steps[k..][1..] == steps[k + 1..];
  }

  /** `_openid_authorize_redirect(openid_base_uri, client_id, redirect_uri, scope, extra_params=None)`. */
  const AuthorizeSignature: seq<Param> :=
    [Param(OpenidBaseUri, false), Param(ClientId, false), Param(RedirectUri, false),
     Param(Scope, false), Param(ExtraParams, true)]

  /** `_openid_token_callback(openid_base_uri, ..., code_verifier, extra_params=None)`. */
  const TokenCallbackSignature: seq<Param> :=
    [Param(OpenidBaseUri, false), Param(ClientId, false), Param(Code, false), Param(ErrorArg, false),
     Param(ErrorDescription, false), Param(State, false), Param(CheckState, false),
     Param(CodeVerifier, false), Param(ExtraParams, true)]

  /** The keywords `launch` passes to the authorize helper, with or without `smart=True`. */
  function LaunchKeywords(smart: bool): seq<Arg>
  {
    if smart then [ClientId, RedirectUri, Scope, ExtraParams, SmartArg] else [ClientId, RedirectUri, Scope, ExtraParams]
  }

  /** The keywords `fhir_callback` passes to the token helper, with or without `smart=True`. */
  function FhirCallbackKeywords(smart: bool): seq<Arg>
  {
    if smart then [ExtraParams, SmartArg] else [ExtraParams]
  }

  /** A call to the authorize helper, with the base URI passed by position and the rest by keyword. */
  function AuthorizeCall(keywords: seq<Arg>): Step
  {
    Call(AuthorizeSignature, 1, keywords)
  }

  /** Both logins finish by storing the state and the verifier the helper returned, in the order given. */
  function StorePending(first: Field, second: Field): seq<Step>
  {
    [Set(first), Set(second)]
  }

  /** `launch` first stores `fhir_api`, then reads it back for `aud`. */
  const LaunchPrelude: seq<Step> := [Set(FhirApi), Get(FhirApi)]

  /** `launch`: the prelude, the authorize call, then the verifier and the state are stored. */
  function LaunchSteps(smart: bool): seq<Step>
  {
    LaunchPrelude + [AuthorizeCall(LaunchKeywords(smart))] + StorePending(FhirCodeVerifier, FhirOauthState)
  }

  /** Both callbacks first read the pending state and verifier and blank each in turn. */
  function TakePending(state: Field, verifier: Field): seq<Step>
  {
    [Get(state), Set(state), Get(verifier), Set(verifier)]
  }

  /** `fhir_callback` reads `fhir_api` for the token helper's first argument and calls it. */
  function FhirTokenCall(smart: bool): seq<Step>
  {
    [Get(FhirApi), Call(TokenCallbackSignature, 8, FhirCallbackKeywords(smart))]
  }

  /**
   * `fhir_callback` then stores the context and the token, reads `fhir_api`
   * twice and `fhir_token` once, and stores the JHE token.
   */
  const FhirStore: seq<Step> :=
    [Set(FhirContext), Set(FhirToken), Get(FhirApi), Get(FhirApi), Get(FhirToken), Set(JheToken)]

  /** `fhir_callback`, once a session is found. */
  function FhirCallbackSteps(smart: bool): seq<Step>
  {
    TakePending(FhirOauthState, FhirCodeVerifier) + FhirTokenCall(smart) + FhirStore
  }

  /** `jhe_login` first checks the JHE token, then calls the authorize helper. */
  const JheLoginHead: seq<Step> := [Get(JheToken), AuthorizeCall([ClientId, Scope, RedirectUri])]

  /** `jhe_login`: the check and the authorize call, then the state and the verifier are stored. */
  function JheLoginSteps(): seq<Step>
  {
    JheLoginHead + StorePending(JheOauthState, JheCodeVerifier)
  }

  /** `jhe_callback` calls the token helper and stores the token. */
  const JheTokenCall: seq<Step> := [Call(TokenCallbackSignature, 8, []), Set(JheToken)]

  /** `jhe_callback`, once a session is found. */
  function JheCallbackSteps(): seq<Step>
  {
    TakePending(JheOauthState, JheCodeVerifier) + JheTokenCall
  }

  /** A keyword that names no parameter of the callee is a TypeError, whatever else is passed. */
  lemma UnknownKeyword(ps: seq<Param>, positional: nat, keywords: seq<Arg>, k: Arg)
    requires k in keywords
    requires forall i :: 0 <= i < |ps| ==> ps[i].name != k
    ensures Bind(ps, positional, keywords).Err?
    ensures Bind(ps, positional, keywords).error.TypeError?
  {
    BindSucceeds(ps, positional, keywords);
    if positional <= |ps| {
      var rest := Names(ps[positional..]);
      assert forall j :: 0 <= j < |rest| ==> rest[j] == ps[positional + j].name;
    }
  }

  /** Neither helper declares `smart`: passing it is a TypeError however the other arguments bind. */
  lemma SmartIsRejected(ps: seq<Param>, positional: nat, keywords: seq<Arg>)
    requires ps == AuthorizeSignature || ps == TokenCallbackSignature
    requires SmartArg in keywords
    ensures Bind(ps, positional, keywords).Err?
    ensures Bind(ps, positional, keywords).error.TypeError?
  {
    assert forall i :: 0 <= i < |ps| ==> ps[i].name != SmartArg;
    UnknownKeyword(ps, positional, keywords, SmartArg);
  }

  /** The authorize helper binds its remaining parameters from the given keywords. */
  lemma AuthorizeBinds(keywords: seq<Arg>)
    requires forall k :: k in keywords ==> k in [ClientId, RedirectUri, Scope, ExtraParams]
    requires ClientId in keywords && RedirectUri in keywords && Scope in keywords
    ensures Bind(AuthorizeSignature, 1, keywords) == Ok(())
  {
    assert Names(AuthorizeSignature[1..]) == [ClientId, RedirectUri, Scope, ExtraParams];
    BindSucceeds(AuthorizeSignature, 1, keywords);
  }

  /** The token helper, given every required argument by position, binds `extra_params` or nothing by keyword. */
  lemma TokenCallbackBinds(keywords: seq<Arg>)
    requires keywords == [] || keywords == [ExtraParams]
    ensures Bind(TokenCallbackSignature, 8, keywords) == Ok(())
  {
    assert Names(TokenCallbackSignature[8..]) == [ExtraParams];
    BindSucceeds(TokenCallbackSignature, 8, keywords);
  }

  /** Taking the pending pair stops at the first read when the state is undeclared, and completes exactly when both are declared. */
  lemma TakePendingRuns(fields: set<Field>, state: Field, verifier: Field)
    ensures state !in fields ==> Run(fields, TakePending(state, verifier)) == Failed(0, AttributeError(Name(state)))
    ensures Run(fields, TakePending(state, verifier)) == Completed <==> state in fields && verifier in fields
  {
    var s := TakePending(state, verifier);
    if state !in fields {
      RunFirstFails(fields, s);
    } else if verifier in fields {
      assert s[4..] == [];
      RunFrom(fields, s, 3);
      RunFrom(fields, s, 2);
      RunFrom(fields, s, 1);
      RunFrom(fields, s, 0);
      assert s[0..] == s;
    } else {
      RunCompletes(fields, s);
      assert s[2] == Get(verifier);
    }
  }

  /** The FHIR token call completes exactly when `fhir_api` is declared and `smart` is not passed; with `smart` it stops at the call. */
  lemma FhirTokenCallRuns(fields: set<Field>, smart: bool)
    ensures Run(fields, FhirTokenCall(smart)) == Completed <==> FhirApi in fields && !smart
    ensures FhirApi in fields && smart ==>
      var o := Run(fields, FhirTokenCall(smart)); o.Failed? && o.step == 1 && o.error.TypeError?
  {
    var s := FhirTokenCall(smart);
    if FhirApi !in fields {
      RunFirstFails(fields, s);
    } else if smart {
      SmartIsRejected(TokenCallbackSignature, 8, s[1].keywords);
      RunFirstFails(fields, s[1..]);
      RunFirstPasses(fields, s, 0, Bind(TokenCallbackSignature, 8, s[1].keywords).error);
    } else {
      TokenCallbackBinds(s[1].keywords);
      assert s[2..] == [];
      RunFrom(fields, s, 1);
      RunFrom(fields, s, 0);
      assert s[0..] == s;
    }
  }

  /** Storing the FHIR results completes exactly when the four fields involved are declared. */
  lemma FhirStoreRuns(fields: set<Field>)
    ensures Run(fields, FhirStore) == Completed <==>
      FhirContext in fields && FhirToken in fields && FhirApi in fields && JheToken in fields
  {
    var s := FhirStore;
    if FhirContext in fields && FhirToken in fields && FhirApi in fields && JheToken in fields {
      assert s[6..] == [];
      RunFrom(fields, s, 5);
      RunFrom(fields, s, 4);
      RunFrom(fields, s, 3);
      RunFrom(fields, s, 2);
      RunFrom(fields, s, 1);
      RunFrom(fields, s, 0);
      assert s[0..] == s;
    } else {
      RunCompletes(fields, s);
      assert s[0].field == FhirContext && s[1].field == FhirToken && s[2].field == FhirApi && s[5].field == JheToken;
    }
  }

  /** The JHE token call completes exactly when `jhe_token` is declared. */
  lemma JheTokenCallRuns(fields: set<Field>)
    ensures Run(fields, JheTokenCall) == Completed <==> JheToken in fields
  {
    var s := JheTokenCall;
    TokenCallbackBinds(s[0].keywords);
    if JheToken in fields {
      assert s[2..] == [];
      RunFrom(fields, s, 1);
      RunFrom(fields, s, 0);
      assert s[0..] == s;
    } else {
      RunCompletes(fields, s);
      assert s[1].field == JheToken;
    }
  }

  /** A single call completes exactly when it binds, and otherwise stops with the binding's error. */
  lemma RunCall(fields: set<Field>, st: Step)
    requires st.Call?
    ensures Run(fields, [st]) == if Exec(fields, st).Ok? then Completed else Failed(0, Exec(fields, st).error)
  {
    assert [st][1..] == [];
  }

  /** Storing the pending pair stops at once when the first field is undeclared, and completes exactly when both are declared. */
  lemma StorePendingRuns(fields: set<Field>, first: Field, second: Field)
    ensures first !in fields ==> Run(fields, StorePending(first, second)) == Failed(0, ValueError(Name(first)))
    ensures Run(fields, StorePending(first, second)) == Completed <==> first in fields && second in fields
  {
    var s := StorePending(first, second);
    assert s[1..] == [Set(second)] && [Set(second)][1..] == [];
    assert Run(fields, s[1..]) == if second in fields then Completed else Failed(0, ValueError(Name(second)));
  }

  /** The `launch` prelude stops at once without `fhir_api`, and completes with it. */
  lemma LaunchPreludeRuns(fields: set<Field>)
    ensures FhirApi !in fields ==> Run(fields, LaunchPrelude) == Failed(0, ValueError(Name(FhirApi)))
    ensures Run(fields, LaunchPrelude) == Completed <==> FhirApi in fields
  {
    var s := LaunchPrelude;
    assert s[1..] == [Get(FhirApi)] && [Get(FhirApi)][1..] == [];
    assert Run(fields, s[1..]) == if FhirApi in fields then Completed else Failed(0, AttributeError(Name(FhirApi)));
  }

  /** As written, `launch` stops at its first statement after `get_session`: the write of `fhir_api` raises ValueError. */
  lemma LaunchFails()
    ensures Run(Declared, LaunchSteps(true)) == Failed(0, ValueError(Name(FhirApi)))
  {
    var rest := [AuthorizeCall(LaunchKeywords(true))] + StorePending(FhirCodeVerifier, FhirOauthState);
    assert LaunchSteps(true) == LaunchPrelude + rest;
    LaunchPreludeRuns(Declared);
    RunPrefixStops(Declared, LaunchPrelude, rest);
  }

  /** `jhe_login`'s check and authorize call complete exactly when `jhe_token` is declared. */
  lemma JheLoginHeadRuns(fields: set<Field>)
    ensures Run(fields, JheLoginHead) == Completed <==> JheToken in fields
  {
    var call := JheLoginHead[1];
    AuthorizeBinds(call.keywords);
    RunCall(fields, call);
    assert JheLoginHead[1..] == [call];
  }

  /** As written, `fhir_callback` with a session raises AttributeError on reading the pending state. */
  lemma FhirCallbackFails()
    ensures Run(Declared, FhirCallbackSteps(true)) == Failed(0, AttributeError(Name(FhirOauthState)))
  {
    var take, rest := TakePending(FhirOauthState, FhirCodeVerifier), FhirTokenCall(true) + FhirStore;
    assert FhirCallbackSteps(true) == take + rest;
    TakePendingRuns(Declared, FhirOauthState, FhirCodeVerifier);
    RunPrefixStops(Declared, take, rest);
  }

  /**
   * As written, `jhe_login` gets through its call to the authorize helper
   * (step 1, which fetches the discovery document and draws the random
   * bytes) and then raises ValueError storing the state.
   */
  lemma JheLoginFails()
    ensures Run(Declared, JheLoginSteps()) == Failed(2, ValueError(Name(JheOauthState)))
  {
    JheLoginStopsAtState(Declared);
  }

  /** With the token declared but not the pending state, `jhe_login` gets past its head and stops storing the state. */
  lemma JheLoginStopsAtState(fields: set<Field>)
    requires JheToken in fields && JheOauthState !in fields
    ensures Run(fields, JheLoginSteps()) == Failed(2, ValueError(Name(JheOauthState)))
  {
    var store := StorePending(JheOauthState, JheCodeVerifier);
    assert Run(fields, JheLoginHead) == Completed by {
      JheLoginHeadRuns(fields);
    }
    assert Run(fields, store) == Failed(0, ValueError(Name(JheOauthState))) by {
      StorePendingRuns(fields, JheOauthState, JheCodeVerifier);
    }
    RunPrefixCompletes(fields, JheLoginHead, store);
  }

  /** As written, `jhe_callback` with a session raises AttributeError on reading the pending state. */
  lemma JheCallbackFails()
    ensures Run(Declared, JheCallbackSteps()) == Failed(0, AttributeError(Name(JheOauthState)))
  {
    RunAppend(Declared, TakePending(JheOauthState, JheCodeVerifier), JheTokenCall);
    TakePendingRuns(Declared, JheOauthState, JheCodeVerifier);
  }

  /** With the fields declared but `smart` still passed, `launch` and `fhir_callback` stop at their helper call with a TypeError. */
  lemma SmartAloneStillFails()
    ensures var o := Run(Corrected, LaunchSteps(true)); o.Failed? && o.step == 2 && o.error.TypeError?
    ensures var o := Run(Corrected, FhirCallbackSteps(true)); o.Failed? && o.step == 5 && o.error.TypeError?
  {
    LaunchSmartFails();
    FhirCallbackSmartFails();
  }

  /** With the fields declared, `launch` passing `smart` stops at its authorize call. */
  lemma LaunchSmartFails()
    ensures var o := Run(Corrected, LaunchSteps(true)); o.Failed? && o.step == 2 && o.error.TypeError?
  {
    var call := [AuthorizeCall(LaunchKeywords(true))];
    LaunchPreludeRuns(Corrected);
    SmartIsRejected(AuthorizeSignature, 1, LaunchKeywords(true));
    RunCall(Corrected, call[0]);
    RunPrefixCompletes(Corrected, LaunchPrelude, call);
    RunPrefixStops(Corrected, LaunchPrelude + call, StorePending(FhirCodeVerifier, FhirOauthState));
  }

  /** With the fields declared, `fhir_callback` passing `smart` stops at its token call. */
  lemma FhirCallbackSmartFails()
    ensures var o := Run(Corrected, FhirCallbackSteps(true)); o.Failed? && o.step == 5 && o.error.TypeError?
  {
    var take := TakePending(FhirOauthState, FhirCodeVerifier);
    TakePendingRuns(Corrected, FhirOauthState, FhirCodeVerifier);
    FhirTokenCallRuns(Corrected, true);
    RunPrefixCompletes(Corrected, take, FhirTokenCall(true));
    RunPrefixStops(Corrected, take + FhirTokenCall(true), FhirStore);
  }

  /** The fields `launch` uses. */
  predicate LaunchFields(fields: set<Field>)
  {
    FhirApi in fields && FhirCodeVerifier in fields && FhirOauthState in fields
  }

  /** Without `smart`, `launch` completes exactly when the model declares the fields it uses. */
  lemma LaunchNeeds(fields: set<Field>)
    ensures Run(fields, LaunchSteps(false)) == Completed <==> LaunchFields(fields)
  {
    var call := [AuthorizeCall(LaunchKeywords(false))];
    RunAppend(fields, LaunchPrelude + call, StorePending(FhirCodeVerifier, FhirOauthState));
    RunAppend(fields, LaunchPrelude, call);
    LaunchPreludeRuns(fields);
    AuthorizeBinds(LaunchKeywords(false));
    RunCall(fields, call[0]);
    StorePendingRuns(fields, FhirCodeVerifier, FhirOauthState);
  }

  /** The fields `fhir_callback` uses. */
  predicate FhirCallbackFields(fields: set<Field>)
  {
    && FhirOauthState in fields && FhirCodeVerifier in fields && FhirApi in fields
    && FhirContext in fields && FhirToken in fields && JheToken in fields
  }

  /** Without `smart`, `fhir_callback` completes exactly when the model declares the fields it uses. */
  lemma FhirCallbackNeeds(fields: set<Field>)
    ensures Run(fields, FhirCallbackSteps(false)) == Completed <==> FhirCallbackFields(fields)
  {
    var take := TakePending(FhirOauthState, FhirCodeVerifier);
    RunAppend(fields, take + FhirTokenCall(false), FhirStore);
    RunAppend(fields, take, FhirTokenCall(false));
    TakePendingRuns(fields, FhirOauthState, FhirCodeVerifier);
    FhirTokenCallRuns(fields, false);
    FhirStoreRuns(fields);
  }

  /** The fields `jhe_login` uses. */
  predicate JheLoginFields(fields: set<Field>)
  {
    JheToken in fields && JheOauthState in fields && JheCodeVerifier in fields
  }

  /** `jhe_login` completes exactly when the model declares the fields it uses. */
  lemma JheLoginNeeds(fields: set<Field>)
    ensures Run(fields, JheLoginSteps()) == Completed <==> JheLoginFields(fields)
  {
    RunAppend(fields, JheLoginHead, StorePending(JheOauthState, JheCodeVerifier));
    JheLoginHeadRuns(fields);
    StorePendingRuns(fields, JheOauthState, JheCodeVerifier);
  }

  /** The fields `jhe_callback` uses. */
  predicate JheCallbackFields(fields: set<Field>)
  {
    JheOauthState in fields && JheCodeVerifier in fields && JheToken in fields
  }

  /** `jhe_callback` completes exactly when the model declares the fields it uses. */
  lemma JheCallbackNeeds(fields: set<Field>)
    ensures Run(fields, JheCallbackSteps()) == Completed <==> JheCallbackFields(fields)
  {
    RunAppend(fields, TakePending(JheOauthState, JheCodeVerifier), JheTokenCall);
    TakePendingRuns(fields, JheOauthState, JheCodeVerifier);
    JheTokenCallRuns(fields);
  }

  /**
   * Without `smart`, each handler runs through exactly when the model
   * declares the fields it uses.
   */
  lemma HandlersNeedTheirFields(fields: set<Field>)
    ensures Run(fields, LaunchSteps(false)) == Completed <==> LaunchFields(fields)
    ensures Run(fields, FhirCallbackSteps(false)) == Completed <==> FhirCallbackFields(fields)
    ensures Run(fields, JheLoginSteps()) == Completed <==> JheLoginFields(fields)
    ensures Run(fields, JheCallbackSteps()) == Completed <==> JheCallbackFields(fields)
  {
    LaunchNeeds(fields);
    FhirCallbackNeeds(fields);
    JheLoginNeeds(fields);
    JheCallbackNeeds(fields);
  }

  /** With every field declared and no `smart`, all four handlers run through every step. */
  lemma CorrectedRuns()
    ensures Run(Corrected, LaunchSteps(false)) == Completed
    ensures Run(Corrected, FhirCallbackSteps(false)) == Completed
    ensures Run(Corrected, JheLoginSteps()) == Completed
    ensures Run(Corrected, JheCallbackSteps()) == Completed
  {
    LaunchNeeds(Corrected);
    FhirCallbackNeeds(Corrected);
    JheLoginNeeds(Corrected);
    JheCallbackNeeds(Corrected);
  }
}
