/** The `authorizeHttpRequests` table of `SecurityConfig`: rules tried in
    declaration order, the first matching rule deciding, and every request
    no rule matches needing authentication. An anonymous request to a route
    that needs authentication is answered 401 by the entry point. */
module SecurityConfig {
  import opened Wrappers
  import opened Text

  datatype HttpMethod = GET | HEAD | POST | PUT | PATCH | DELETE | OPTIONS | TRACE

  /** A literal path, or a subtree pattern (the base followed by a double-star
      segment): the base itself and everything below it. */
  datatype PathPattern = Exact(path: string) | Subtree(base: string)

  datatype Access = PermitAll | Authenticated

  /** One `requestMatchers(...)` rule; no method means any method. */
  datatype Rule = Rule(verb: Option<HttpMethod>, patterns: seq<PathPattern>, access: Access)

  predicate PatternMatches(p: PathPattern, path: string) {
    match p
    case Exact(e) => path == e
    case Subtree(b) => path == b || StartsWith(path, b + "/")
  }

  predicate RuleMatches(r: Rule, m: HttpMethod, path: string) {
    && (r.verb.None? || r.verb.value == m)
    && exists i :: 0 <= i < |r.patterns| && PatternMatches(r.patterns[i], path)
  }

  const PUBLIC_PATHS := [
    "/api/v1/auth/register", "/echo", "/api/v1/auth/login", "/api/v1/auth/refresh",
    "/api/v1/auth/forgot-password", "/api/v1/auth/reset-password", "/api/v1/auth/2fa/setup",
    "/api/v1/auth/2fa/verify", "/api/v1/system/status"]

  const PUBLIC_GET_TREES := [
    "/api/v1/quizzes", "/api/v1/tags", "/api/v1/categories", "/api/v1/questions",
    "/v3/api-docs", "/swagger-ui", "/api/v1/docs"]

  /** The rules before `anyRequest()`, in declaration order. */
  const RULES: seq<Rule> := [
    Rule(None, [Exact(PUBLIC_PATHS[0]), Exact(PUBLIC_PATHS[1]), Exact(PUBLIC_PATHS[2]),
                Exact(PUBLIC_PATHS[3]), Exact(PUBLIC_PATHS[4]), Exact(PUBLIC_PATHS[5]),
                Exact(PUBLIC_PATHS[6]), Exact(PUBLIC_PATHS[7]), Exact(PUBLIC_PATHS[8])], PermitAll),
    Rule(Some(GET), [Exact("/api/v1/auth/me")], Authenticated),
    Rule(Some(GET), [Subtree(PUBLIC_GET_TREES[0])], PermitAll),
    Rule(Some(GET), [Subtree(PUBLIC_GET_TREES[1])], PermitAll),
    Rule(Some(GET), [Subtree(PUBLIC_GET_TREES[2])], PermitAll),
    Rule(Some(GET), [Subtree(PUBLIC_GET_TREES[3])], PermitAll),
    Rule(Some(GET), [Subtree(PUBLIC_GET_TREES[4])], PermitAll),
    Rule(Some(GET), [Subtree(PUBLIC_GET_TREES[5])], PermitAll),
    Rule(Some(GET), [Subtree(PUBLIC_GET_TREES[6])], PermitAll),
    Rule(Some(GET), [Exact("/api/v1/health")], PermitAll)]

  /** The index of the first rule from `from` on that matches. */
  function FirstMatch(rules: seq<Rule>, m: HttpMethod, path: string, from: nat): (r: Option<nat>)
    requires from <= |rules|
    decreases |rules| - from
    ensures r.Some? ==> from <= r.value < |rules| && RuleMatches(rules[r.value], m, path)
    ensures r.Some? ==> forall j :: from <= j < r.value ==> !RuleMatches(rules[j], m, path)
    ensures r.None? ==> forall j :: from <= j < |rules| ==> !RuleMatches(rules[j], m, path)
  {
    if from == |rules| then None
    else if RuleMatches(rules[from], m, path) then Some(from)
    else FirstMatch(rules, m, path, from + 1)
  }

  /** What the table requires of a request; `anyRequest().authenticated()`
      catches the rest. */
  function Required(m: HttpMethod, path: string): (a: Access)
    ensures (exists i :: 0 <= i < |RULES| && RuleMatches(RULES[i], m, path)) ==>
              exists i :: && 0 <= i < |RULES| && RuleMatches(RULES[i], m, path) && a == RULES[i].access
                          && forall j :: 0 <= j < i ==> !RuleMatches(RULES[j], m, path)
    ensures (forall i :: 0 <= i < |RULES| ==> !RuleMatches(RULES[i], m, path)) ==> a == Authenticated
  {
    match FirstMatch(RULES, m, path, 0)
    case None => Authenticated
    case Some(i) => RULES[i].access
  }

  datatype Verdict = Proceed | Unauthorized401

  /** The filter chain's verdict: the entry point sends 401 when the route
      needs authentication and the request has none. */
  function Authorize(m: HttpMethod, path: string, authenticated: bool): (v: Verdict)
    ensures v == Unauthorized401 <==> Required(m, path) == Authenticated && !authenticated
  {
    if Required(m, path) == Authenticated && !authenticated then Unauthorized401 else Proceed
  }

  /** A string that differs from `b` at position `i` (or ends before it) is
      neither `b` nor below it. */
  lemma Clash(s: string, b: string, i: nat)
    requires i < |b| && (i >= |s| || s[i] != b[i])
    ensures !PatternMatches(Subtree(b), s) && !PatternMatches(Exact(b), s)
  {
  }

  /** The shape of the table: which pattern each rule holds. */
  lemma RuleShapes()
    ensures |RULES| == 10 && |RULES[0].patterns| == |PUBLIC_PATHS|
    ensures forall i :: 0 <= i < |PUBLIC_PATHS| ==> RULES[0].patterns[i] == Exact(PUBLIC_PATHS[i])
    ensures RULES[0].verb.None? && RULES[0].access == PermitAll
    ensures RULES[1] == Rule(Some(GET), [Exact("/api/v1/auth/me")], Authenticated)
    ensures forall k :: 0 <= k < |PUBLIC_GET_TREES| ==>
              RULES[k + 2] == Rule(Some(GET), [Subtree(PUBLIC_GET_TREES[k])], PermitAll)
    ensures RULES[9] == Rule(Some(GET), [Exact("/api/v1/health")], PermitAll)
  {
  }

  /** A path none of whose patterns fits reaches `anyRequest()`. */
  lemma NoRuleMatches(m: HttpMethod, path: string)
    requires forall i :: 0 <= i < |PUBLIC_PATHS| ==> path != PUBLIC_PATHS[i]
    requires path != "/api/v1/auth/me" && path != "/api/v1/health"
    requires forall k :: 0 <= k < |PUBLIC_GET_TREES| ==> !PatternMatches(Subtree(PUBLIC_GET_TREES[k]), path)
    ensures forall i :: 0 <= i < |RULES| ==> !RuleMatches(RULES[i], m, path)
    ensures Required(m, path) == Authenticated
  {
    RuleShapes();
    forall i | 0 <= i < |RULES|
      ensures !RuleMatches(RULES[i], m, path)
    {
      if 2 <= i < 9 {
        assert RULES[i].patterns == [Subtree(PUBLIC_GET_TREES[i - 2])];
      }
    }
  }

  /** No listed public path lies in one of the GET trees. */
  lemma PublicNotUnderTree(i: nat, k: nat)
    requires i < |PUBLIC_PATHS| && k < |PUBLIC_GET_TREES|
    ensures !PatternMatches(Subtree(PUBLIC_GET_TREES[k]), PUBLIC_PATHS[i])
  {
    var e := PUBLIC_PATHS[i];
    var b := PUBLIC_GET_TREES[k];
    assert e[1] == (if i == 1 then 'e' else 'a');
    assert b[1] == (if k == 4 then 'v' else if k == 5 then 's' else 'a');
    if e[1] != b[1] {
      Clash(e, b, 1);
    } else {
      assert e[8] == (if i == 8 then 's' else 'a');
      assert b[8] == (if k == 0 || k == 3 then 'q' else if k == 1 then 't' else if k == 2 then 'c' else 'd');
      Clash(e, b, 8);
    }
  }

  /** The nine listed paths are open to every method. */
  lemma PublicPathsOpen(m: HttpMethod, k: nat)
    requires k < |PUBLIC_PATHS|
    ensures Required(m, PUBLIC_PATHS[k]) == PermitAll
  {
    RuleShapes();
    assert PatternMatches(RULES[0].patterns[k], PUBLIC_PATHS[k]);
    assert RuleMatches(RULES[0], m, PUBLIC_PATHS[k]);
  }

  /** GET /api/v1/auth/me needs authentication, and so does every other
      method on it. */
  lemma MeNeedsAuthentication(m: HttpMethod)
    ensures Required(m, "/api/v1/auth/me") == Authenticated
  {
    RuleShapes();
    var me := "/api/v1/auth/me";
    assert forall i :: 0 <= i < |PUBLIC_PATHS| ==> |PUBLIC_PATHS[i]| != |me|;
    if m == GET {
      assert PatternMatches(RULES[1].patterns[0], me);
      assert RuleMatches(RULES[1], GET, me);
      assert !RuleMatches(RULES[0], GET, me);
    } else {
      forall i | 0 <= i < |RULES|
        ensures !RuleMatches(RULES[i], m, me)
      {
      }
    }
  }

  /** A path in a GET tree is none of the nine public paths. */
  lemma TreeNotPublicPath(k: nat, path: string)
    requires k < |PUBLIC_GET_TREES|
    requires PatternMatches(Subtree(PUBLIC_GET_TREES[k]), path)
    ensures forall i :: 0 <= i < |PUBLIC_PATHS| ==> path != PUBLIC_PATHS[i]
  {
    forall i | 0 <= i < |PUBLIC_PATHS|
      ensures path != PUBLIC_PATHS[i]
    {
      PublicNotUnderTree(i, k);
    }
  }

  /** A path in a GET tree is not /api/v1/auth/me. */
  lemma TreeNotMe(k: nat, path: string)
    requires k < |PUBLIC_GET_TREES|
    requires PatternMatches(Subtree(PUBLIC_GET_TREES[k]), path)
    ensures path != "/api/v1/auth/me"
  {
    var b := PUBLIC_GET_TREES[k];
    assert b[1] == (if k == 4 then 'v' else if k == 5 then 's' else 'a');
    if b[1] != 'a' {
      Clash("/api/v1/auth/me", b, 1);
    } else {
      assert b[8] == (if k == 0 || k == 3 then 'q' else if k == 1 then 't' else if k == 2 then 'c' else 'd');
      Clash("/api/v1/auth/me", b, 8);
    }
  }

  /** A path in a GET tree is none of the exact paths before the tree rules. */
  lemma TreeAvoidsEarlierRules(m: HttpMethod, k: nat, path: string)
    requires k < |PUBLIC_GET_TREES|
    requires PatternMatches(Subtree(PUBLIC_GET_TREES[k]), path)
    ensures !RuleMatches(RULES[0], m, path) && !RuleMatches(RULES[1], m, path)
  {
    RuleShapes();
    TreeNotPublicPath(k, path);
    TreeNotMe(k, path);
  }

  /** The rule for tree `k` matches GET on any path in that tree. */
  lemma TreeRuleMatches(k: nat, path: string)
    requires k < |PUBLIC_GET_TREES|
    requires PatternMatches(Subtree(PUBLIC_GET_TREES[k]), path)
    ensures RuleMatches(RULES[k + 2], GET, path)
  {
    RuleShapes();
    assert PatternMatches(RULES[k + 2].patterns[0], path);
  }

  /** Every rule after the first two is a GET rule that permits all. */
  lemma LaterRulesArePublicGets()
    ensures forall i :: 2 <= i < |RULES| ==> RULES[i].verb == Some(GET) && RULES[i].access == PermitAll
  {
    RuleShapes();
    forall i | 2 <= i < |RULES|
      ensures RULES[i].verb == Some(GET) && RULES[i].access == PermitAll
    {
      if i < 9 {
        assert RULES[i] == RULES[(i - 2) + 2];
      }
    }
  }

  /** GET anywhere in the seven catalogue and documentation trees is public. */
  lemma GetTreesOpen(k: nat, path: string)
    requires k < |PUBLIC_GET_TREES|
    requires PatternMatches(Subtree(PUBLIC_GET_TREES[k]), path)
    ensures Required(GET, path) == PermitAll
  {
    TreeAvoidsEarlierRules(GET, k, path);
    TreeRuleMatches(k, path);
    LaterRulesArePublicGets();
    var i := FirstMatch(RULES, GET, path, 0).value;
    assert 2 <= i;
  }

  /** Those tree rules are GET-only: any other method on the same paths
      falls through to the authenticated default. */
  lemma OtherMethodsOnTreesNeedAuthentication(m: HttpMethod, k: nat, path: string)
    requires m != GET && k < |PUBLIC_GET_TREES|
    requires PatternMatches(Subtree(PUBLIC_GET_TREES[k]), path)
    ensures Required(m, path) == Authenticated
  {
    TreeAvoidsEarlierRules(m, k, path);
    LaterRulesArePublicGets();
    assert forall i :: 0 <= i < |RULES| ==> !RuleMatches(RULES[i], m, path);
  }

  /** The chat endpoint and logout match no rule and so need authentication. */
  lemma ChatAndLogoutNeedAuthentication(m: HttpMethod)
    ensures Required(m, "/api/v1/chat") == Authenticated
    ensures Required(m, "/api/v1/auth/logout") == Authenticated
  {
    var chat := "/api/v1/chat";
    var logout := "/api/v1/auth/logout";
    assert forall i :: 0 <= i < |PUBLIC_PATHS| ==> |PUBLIC_PATHS[i]| != |chat| && |PUBLIC_PATHS[i]| != |logout|;
    forall k | 0 <= k < |PUBLIC_GET_TREES|
      ensures !PatternMatches(Subtree(PUBLIC_GET_TREES[k]), chat)
      ensures !PatternMatches(Subtree(PUBLIC_GET_TREES[k]), logout)
    {
      var b := PUBLIC_GET_TREES[k];
      assert b[1] == (if k == 4 then 'v' else if k == 5 then 's' else 'a');
      if b[1] != 'a' {
        Clash(chat, b, 1);
        Clash(logout, b, 1);
      } else {
        assert b[8] == (if k == 0 || k == 3 then 'q' else if k == 1 then 't' else if k == 2 then 'c' else 'd');
        assert k == 2 ==> |b| == 18;
        Clash(chat, b, if k == 2 then 12 else 8);
        Clash(logout, b, 8);
      }
    }
    NoRuleMatches(m, chat);
    NoRuleMatches(m, logout);
  }

  /** An anonymous request to a protected route is answered 401, and an
      authenticated one is let through everywhere. */
  lemma AnonymousGets401OnProtected(m: HttpMethod, path: string)
    ensures Authorize(m, path, true) == Proceed
    ensures Required(m, path) == Authenticated ==> Authorize(m, path, false) == Unauthorized401
    ensures Required(m, path) == PermitAll ==> Authorize(m, path, false) == Proceed
  {
  }
}
