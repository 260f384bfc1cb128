/** The job router (src/routes/jobRoutes.js): an ordered table of routes, each
    a verb, a path pattern below the mount point, a chain of guards and a
    handler; a request goes to the first route that matches it, and its
    guards run in order before the handler. */
module JobRoutes {
  import opened Common
  import opened UserModel
  import AuthGate

  datatype Verb = Get | Post | Put | Delete

  /** A path pattern segment: fixed text, or the `:id` parameter, which
      matches any non-empty segment. */
  datatype Segment = Literal(text: string) | IdParam

  /** `protect`, or `authorize(role)`. */
  datatype Guard = RequireLogin | RequireRole(role: Role)

  datatype Handler = ListJobs | GetMyJobs | GetJobById | CreateJob | UpdateJob | DeleteJob | SubmitProposal

  datatype Route = Route(verb: Verb, pattern: seq<Segment>, guards: seq<Guard>, handler: Handler)

  /** The route table, in declaration order. */
  const Routes: seq<Route> := [
    Route(Get, [], [], ListJobs),
    Route(Get, [Literal("my")], [RequireLogin, RequireRole(Client)], GetMyJobs),
    Route(Get, [IdParam], [], GetJobById),
    Route(Post, [], [RequireLogin, RequireRole(Client)], CreateJob),
    Route(Put, [IdParam], [RequireLogin, RequireRole(Client)], UpdateJob),
    Route(Delete, [IdParam], [RequireLogin, RequireRole(Client)], DeleteJob),
    Route(Post, [IdParam, Literal("proposals")], [RequireLogin, RequireRole(Freelancer)], SubmitProposal)
  ]

  /** `express.Router()` with its default options is case-insensitive: a
      literal segment matches any spelling of it in upper or lower case. The
      `:id` parameter matches any non-empty segment. */
  function SegmentMatches(p: Segment, s: string): (r: bool)
    ensures p.Literal? && LowerCase(p.text) == p.text ==>
      (r <==> |s| == |p.text| && forall k :: 0 <= k < |s| ==> LowerChar(s[k]) == p.text[k])
    ensures p.IdParam? ==> (r <==> s != "")
  {
    match p
    case Literal(t) => LowerCase(s) == t
    case IdParam => s != ""
  }

  /** A request path below the mount point, split at '/', with one trailing
      slash (a last, empty segment) dropped: the default router is not
      strict, so `/my/` is `/my`. */
  function StripSlash(path: seq<string>): (r: seq<string>)
    ensures path == r + [""] || (path == r && (r == [] || r[|r| - 1] != ""))
  {
    if |path| > 0 && path[|path| - 1] == "" then path[..|path| - 1] else path
  }

  /** A route matches a request with its verb and a path with as many
      segments as its pattern, once a trailing slash is dropped, each
      matching. */
  function Matches(r: Route, verb: Verb, path: seq<string>): (b: bool)
    ensures b ==> r.verb == verb && |r.pattern| == |StripSlash(path)|
  {
    var p := StripSlash(path);
    r.verb == verb && |r.pattern| == |p|
    && forall i :: 0 <= i < |p| ==> SegmentMatches(r.pattern[i], p[i])
  }

  /** The index of the first route, from `from` on, that matches. */
  function FirstMatch(routes: seq<Route>, verb: Verb, path: seq<string>, from: nat): (r: Option<nat>)
    requires from <= |routes|
    ensures r.Some? ==> from <= r.value < |routes| && Matches(routes[r.value], verb, path)
    ensures r.Some? ==> forall i :: from <= i < r.value ==> !Matches(routes[i], verb, path)
    ensures r.None? ==> forall i :: from <= i < |routes| ==> !Matches(routes[i], verb, path)
    decreases |routes| - from
  {
    if from == |routes| then None
    else if Matches(routes[from], verb, path) then Some(from)
    else FirstMatch(routes, verb, path, from + 1)
  }

  /** The value of the `:id` segment, when the pattern has one. */
  function IdOf(pattern: seq<Segment>, path: seq<string>): (r: Option<string>)
    requires |pattern| == |path|
    ensures r.Some? ==> exists i :: 0 <= i < |path| && pattern[i] == IdParam && path[i] == r.value
    ensures r.None? ==> IdParam !in pattern
  {
    if pattern == [] then None
    else if pattern[0] == IdParam then Some(path[0])
    else
      var rest := IdOf(pattern[1..], path[1..]);
      assert forall i :: 1 <= i < |pattern| ==> pattern[i] == pattern[1..][i - 1];
      if rest.None? then None
      else
        ghost var i :| 0 <= i < |path[1..]| && pattern[1..][i] == IdParam && path[1..][i] == rest.value;
        assert pattern[i + 1] == IdParam && path[i + 1] == rest.value;
        rest
  }

  /** Where the router sends a request: the route's handler and guards, and the
      `:id` value. */
  datatype Target = Target(handler: Handler, guards: seq<Guard>, id: Option<string>)

  function Dispatch(verb: Verb, path: seq<string>): (r: Option<Target>)
    ensures r.Some? <==> exists i :: 0 <= i < |Routes| && Matches(Routes[i], verb, path)
    ensures r.Some? ==>
      exists i :: (&& 0 <= i < |Routes| && Matches(Routes[i], verb, path)
                   && (forall j :: 0 <= j < i ==> !Matches(Routes[j], verb, path))
                   && r.value.handler == Routes[i].handler && r.value.guards == Routes[i].guards)
  {
    match FirstMatch(Routes, verb, path, 0)
    case None => None
    case Some(i) => Some(Target(Routes[i].handler, Routes[i].guards, IdOf(Routes[i].pattern, StripSlash(path))))
  }

  const ClientGuards: seq<Guard> := [RequireLogin, RequireRole(Client)]
  const FreelancerGuards: seq<Guard> := [RequireLogin, RequireRole(Freelancer)]

  /** The guards each handler is mounted behind in the table. */
  function GuardsFor(h: Handler): seq<Guard> {
    if h == ListJobs || h == GetJobById then []
    else if h == SubmitProposal then FreelancerGuards
    else ClientGuards
  }

  /** The whole dispatch table: which requests reach which handler, behind which
      guards and with which id, and that every other request matches no route.
      Literal segments match in any case and one trailing slash is ignored.
      In particular `GET /my` (or `/MY`, `/My/`) never reaches getJobById,
      while `PUT`, `DELETE` and `POST .../proposals` take "my" as an id like
      any other segment. */
  lemma DispatchTable(verb: Verb, path: seq<string>)
    ensures var p := StripSlash(path);
      && (verb == Get && p == [] ==> Dispatch(verb, path) == Some(Target(ListJobs, [], None)))
      && (verb == Get && |p| == 1 && LowerCase(p[0]) == "my" ==> Dispatch(verb, path) == Some(Target(GetMyJobs, ClientGuards, None)))
      && (verb == Get && |p| == 1 && p[0] != "" && LowerCase(p[0]) != "my" ==>
            Dispatch(verb, path) == Some(Target(GetJobById, [], Some(p[0]))))
      && (verb == Post && p == [] ==> Dispatch(verb, path) == Some(Target(CreateJob, ClientGuards, None)))
      && (verb == Put && |p| == 1 && p[0] != "" ==> Dispatch(verb, path) == Some(Target(UpdateJob, ClientGuards, Some(p[0]))))
      && (verb == Delete && |p| == 1 && p[0] != "" ==> Dispatch(verb, path) == Some(Target(DeleteJob, ClientGuards, Some(p[0]))))
      && (verb == Post && |p| == 2 && p[0] != "" && LowerCase(p[1]) == "proposals" ==>
            Dispatch(verb, path) == Some(Target(SubmitProposal, FreelancerGuards, Some(p[0]))))
      && (Dispatch(verb, path).Some? <==>
            || (verb == Get && (p == [] || (|p| == 1 && p[0] != "")))
            || (verb == Post && (p == [] || (|p| == 2 && p[0] != "" && LowerCase(p[1]) == "proposals")))
            || ((verb == Put || verb == Delete) && |p| == 1 && p[0] != ""))
  {
    RouteMatches(verb, path);
    var p := StripSlash(path);
    var m := FirstMatch(Routes, verb, path, 0);
    if m.Some? {
      assert IdOf(Routes[m.value].pattern, p) == if m.value in {2, 4, 5, 6} then Some(p[0]) else None;
    }
  }

  /** Which requests each route matches. */
  lemma RouteMatches(verb: Verb, path: seq<string>)
    ensures var p := StripSlash(path);
      && (Matches(Routes[0], verb, path) <==> verb == Get && p == [])
      && (Matches(Routes[1], verb, path) <==> verb == Get && |p| == 1 && LowerCase(p[0]) == "my")
      && (Matches(Routes[2], verb, path) <==> verb == Get && |p| == 1 && p[0] != "")
      && (Matches(Routes[3], verb, path) <==> verb == Post && p == [])
      && (Matches(Routes[4], verb, path) <==> verb == Put && |p| == 1 && p[0] != "")
      && (Matches(Routes[5], verb, path) <==> verb == Delete && |p| == 1 && p[0] != "")
      && (Matches(Routes[6], verb, path) <==> verb == Post && |p| == 2 && p[0] != "" && LowerCase(p[1]) == "proposals")
  {
    var p := StripSlash(path);
    if |p| == 1 {
      assert LowerCase(p[0]) == "my" ==> p[0] != "";
    }
  }

  /** Mixed case and a trailing slash reach the same handler as the
      lower-case path: `GET /MY/` is getMyJobs. */
  lemma UpperCaseMyWithSlash()
    ensures Dispatch(Get, ["MY", ""]) == Some(Target(GetMyJobs, ClientGuards, None))
  {
    assert StripSlash(["MY", ""]) == ["MY"];
    var my := LowerCase("MY");
    assert my[0] == 'm' && my[1] == 'y';
    DispatchTable(Get, ["MY", ""]);
  }

  /** `POST /x/Proposals` is submitProposal with the id "x". */
  lemma MixedCaseProposals()
    ensures Dispatch(Post, ["x", "Proposals"]) == Some(Target(SubmitProposal, FreelancerGuards, Some("x")))
  {
    CapitalProposals();
    assert StripSlash(["x", "Proposals"]) == ["x", "Proposals"];
    DispatchTable(Post, ["x", "Proposals"]);
  }

  lemma CapitalProposals()
    ensures LowerCase("Proposals") == "proposals"
  {
    var pr := LowerCase("Proposals");
    assert pr[0] == 'p';
  }

  /** Only listJobs and getJobById run without a guard; every other handler runs
      behind `protect` followed by `authorize` with the handler's role. */
  lemma GuardsByHandler(verb: Verb, path: seq<string>)
    requires Dispatch(verb, path).Some?
    ensures var t := Dispatch(verb, path).value;
      && (t.guards == [] <==> t.handler == ListJobs || t.handler == GetJobById)
      && (t.handler in {GetMyJobs, CreateJob, UpdateJob, DeleteJob} ==> t.guards == ClientGuards)
      && (t.handler == SubmitProposal ==> t.guards == FreelancerGuards)
  {
    TableGuards();
    var t := Dispatch(verb, path).value;
    assert t.guards == GuardsFor(t.handler);
  }

  /** Every route of the table sits behind the guards of its handler. */
  lemma TableGuards()
    ensures forall i :: 0 <= i < |Routes| ==> Routes[i].guards == GuardsFor(Routes[i].handler)
  {
  }

  /** The role `authorize` demands on a guarded route. */
  function RouteRole(h: Handler): Role {
    if h == SubmitProposal then Freelancer else Client
  }

  // ---------------------------------------------------------------------------
  // Running the guards
  // ---------------------------------------------------------------------------

  /** What becomes of a request before any handler runs: no route, a 401 from
      `protect`, a 403 from `authorize`, or the handler with the `:id` value
      and the user `protect` attached (None on a public route). */
  datatype Admission =
    | NoRoute
    | Unauthenticated(message: string)
    | Forbidden
    | Admitted(handler: Handler, id: Option<string>, caller: Option<PublicUser>)

  /** The guards of a route, in order. `authorize(role)` is taken to let
      through exactly a request whose attached user has that role. */
  function RunGuards(guards: seq<Guard>, header: Option<string>, verify: string -> Option<Id>,
                     users: map<Id, User>, caller: Option<PublicUser>): (r: Result)
    ensures r.Pass? ==> (r.caller.Some? <==> caller.Some? || RequireLogin in guards)
    ensures r.Pass? && r.caller != caller ==> AuthGate.Protect(header, verify, users) == AuthGate.Next(r.caller.value)
    ensures r.Stop? ==> r.refusal.Unauthenticated? || r.refusal.Forbidden?
    ensures r.Stop? && r.refusal.Unauthenticated? ==>
      RequireLogin in guards && AuthGate.Protect(header, verify, users) == AuthGate.Deny(r.refusal.message)
    decreases |guards|
  {
    if guards == [] then Pass(caller)
    else
      assert guards == [guards[0]] + guards[1..];
      match guards[0]
      case RequireLogin =>
        (match AuthGate.Protect(header, verify, users)
         case Deny(m) => Stop(Unauthenticated(m))
         case Next(u) => RunGuards(guards[1..], header, verify, users, Some(u)))
      case RequireRole(role) =>
        if caller.Some? && caller.value.role == role then RunGuards(guards[1..], header, verify, users, caller)
        else Stop(Forbidden)
  }

  datatype Result = Pass(caller: Option<PublicUser>) | Stop(refusal: Admission)

  /** Route the request, then run its guards. */
  function Admit(verb: Verb, path: seq<string>, header: Option<string>, verify: string -> Option<Id>,
                 users: map<Id, User>): (r: Admission)
    ensures Dispatch(verb, path).None? <==> r == NoRoute
    ensures r.Admitted? ==> Dispatch(verb, path).Some? && r.handler == Dispatch(verb, path).value.handler
                            && r.id == Dispatch(verb, path).value.id
  {
    match Dispatch(verb, path)
    case None => NoRoute
    case Some(t) =>
      match RunGuards(t.guards, header, verify, users, None)
      case Stop(refusal) => refusal
      case Pass(caller) => Admitted(t.handler, t.id, caller)
  }

  /** What the guards make of a routed request, in full: a public route
      admits it without a user; on a guarded route a refusal by `protect` is
      a 401 with its message, a user of the wrong role is a 403, and a user of
      the route's role is admitted, attached as `protect` gave it. */
  lemma AdmissionOutcome(verb: Verb, path: seq<string>, header: Option<string>, verify: string -> Option<Id>,
                         users: map<Id, User>)
    requires Dispatch(verb, path).Some?
    ensures var t := Dispatch(verb, path).value;
      var g := AuthGate.Protect(header, verify, users);
      var a := Admit(verb, path, header, verify, users);
      && (t.guards == [] ==> a == Admitted(t.handler, t.id, None))
      && (t.guards != [] && g.Deny? ==> a == Unauthenticated(g.message))
      && (t.guards != [] && g.Next? && g.user.role != RouteRole(t.handler) ==> a == Forbidden)
      && (t.guards != [] && g.Next? && g.user.role == RouteRole(t.handler) ==> a == Admitted(t.handler, t.id, Some(g.user)))
  {
    var t := Dispatch(verb, path).value;
    GuardsByHandler(verb, path);
    if t.guards != [] {
      assert t.guards == [RequireLogin, RequireRole(RouteRole(t.handler))];
      LoginThenRole(RouteRole(t.handler), header, verify, users);
    }
  }

  /** `protect` followed by `authorize(role)`: `protect`'s refusal, a 403 for
      a user of another role, or the user `protect` attached. */
  lemma LoginThenRole(role: Role, header: Option<string>, verify: string -> Option<Id>, users: map<Id, User>)
    ensures var g := AuthGate.Protect(header, verify, users);
      var r := RunGuards([RequireLogin, RequireRole(role)], header, verify, users, None);
      && (g.Deny? ==> r == Stop(Unauthenticated(g.message)))
      && (g.Next? && g.user.role != role ==> r == Stop(Forbidden))
      && (g.Next? && g.user.role == role ==> r == Pass(Some(g.user)))
  {
    var gs := [RequireLogin, RequireRole(role)];
    assert gs[1..] == [RequireRole(role)];
    var g := AuthGate.Protect(header, verify, users);
    if g.Next? {
      var one := [RequireRole(role)];
      assert one[0] == RequireRole(role) && one[1..] == [];
      assert RunGuards([], header, verify, users, Some(g.user)) == Pass(Some(g.user));
      assert RunGuards(one, header, verify, users, Some(g.user)) == if g.user.role == role then Pass(Some(g.user)) else Stop(Forbidden);
    }
  }

  /** A public route admits every request, whatever its header, and without a
      user; a guarded one admits a request only for a stored, active user of
      the route's role, the one `protect` attached. */
  lemma AdmissionSound(verb: Verb, path: seq<string>, header: Option<string>, verify: string -> Option<Id>,
                       users: map<Id, User>)
    requires forall k :: k in users ==> users[k].id == k
    requires Admit(verb, path, header, verify, users).Admitted?
    ensures var a := Admit(verb, path, header, verify, users);
      && (a.handler == ListJobs || a.handler == GetJobById <==> a.caller.None?)
      && (a.caller.Some? ==>
            && AuthGate.Protect(header, verify, users) == AuthGate.Next(a.caller.value)
            && a.caller.value.id in users
            && users[a.caller.value.id].isActive
            && a.caller.value == GetPublicProfile(users[a.caller.value.id])
            && a.caller.value.role == RouteRole(a.handler))
  {
    AdmissionOutcome(verb, path, header, verify, users);
    GuardsByHandler(verb, path);
    if AuthGate.Protect(header, verify, users).Next? {
      AuthGate.AttachedUserIsStoredAndActive(header, verify, users);
    }
  }

  /** The other direction: a request on a routed path, with a header whose
      token verifies to a stored, active user of the route's role, is admitted
      with that user attached. */
  lemma AdmissionComplete(verb: Verb, path: seq<string>, header: Option<string>, verify: string -> Option<Id>,
                          users: map<Id, User>)
    requires Dispatch(verb, path).Some?
    requires AuthGate.Protect(header, verify, users).Next?
    requires AuthGate.Protect(header, verify, users).user.role == RouteRole(Dispatch(verb, path).value.handler)
    ensures Admit(verb, path, header, verify, users).Admitted?
    ensures var t := Dispatch(verb, path).value;
      Admit(verb, path, header, verify, users).caller ==
        (if t.guards == [] then None else Some(AuthGate.Protect(header, verify, users).user))
  {
    AdmissionOutcome(verb, path, header, verify, users);
  }
}
