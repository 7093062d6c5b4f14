/**
 Access sessions in front of the capability registries (packages/capability-runtime/src/access.ts).
 What a schema or a constraint evaluator says about one input is part of the request.
 */
module CapabilityAccess {
  import opened Results
  import opened Utf16
  import opened Capabilities

  datatype Time = Finite(ms: int) | NotFinite

  datatype Constraint = Constraint(kind: Text, value: Text)

  datatype Grant = Grant(capabilityId: Text, constraints: seq<Constraint>, expiresAt: Option<Time>)

  datatype Subject = Subject(id: Text, sessionId: Text)

  datatype SessionOptions = SessionOptions(subject: Subject, grants: seq<Grant>, expiresAt: Option<Time>)

  datatype Session = Session(expiresAt: Option<int>, grants: map<Text, Grant>, revoked: bool, aborted: bool)

  // `passed` are the constraints that a known evaluator accepts for the parsed input.
  datatype Request = Request(capability: Token, now: int, inputParses: bool, passed: set<Constraint>, aborted: bool)

  datatype Reason = Granted | GrantExpired | ConstraintRejected | MissingGrant | SessionHasExpired | SessionWasRevoked

  // What is written to the audit log, and the error that ends the invocation.
  datatype Verdict = Verdict(audit: Option<Reason>, error: Option<CapabilityError>)

  predicate ExpiryInvalid(expiresAt: Option<Time>) {
    expiresAt.Some? && expiresAt.value.NotFinite?
  }

  function GrantError(registered: set<Text>, grant: Grant, granted: set<Text>): Option<CapabilityError> {
    if ExpiryInvalid(grant.expiresAt) then Some(AccessDenied)
    else if grant.capabilityId !in registered then Some(NotFound)
    else if grant.capabilityId in granted then Some(AccessDenied)
    else None
  }

  function Grants(registered: set<Text>, grants: seq<Grant>): Result<map<Text, Grant>, CapabilityError> {
    if grants == [] then Ok(map[])
    else match Grants(registered, grants[..|grants| - 1])
      case Err(error) => Err(error)
      case Ok(earlier) =>
        var grant := grants[|grants| - 1];
        var error := GrantError(registered, grant, earlier.Keys);
        if error.Some? then Err(error.value) else Ok(earlier[grant.capabilityId := grant])
  }

  function NewSession(registered: set<Text>, options: SessionOptions): Result<Session, CapabilityError> {
    if Trim(options.subject.id) == [] || Trim(options.subject.sessionId) == [] then Err(AccessDenied)
    else if ExpiryInvalid(options.expiresAt) then Err(SessionExpired)
    else match Grants(registered, options.grants)
      case Err(error) => Err(error)
      case Ok(grants) => Ok(Session(if options.expiresAt.Some? then Some(options.expiresAt.value.ms) else None, grants, false, false))
  }

  function AfterRevoke(session: Session): Session {
    if session.revoked then session else session.(revoked := true, aborted := true)
  }

  predicate Expired(expiresAt: Option<Time>, now: int) {
    expiresAt.Some? && expiresAt.value.Finite? && expiresAt.value.ms <= now
  }

  function Authorize(session: Session, request: Request): Verdict {
    var id := request.capability.id;
    if session.revoked then Verdict(Some(SessionWasRevoked), Some(SessionRevoked))
    else if session.expiresAt.Some? && session.expiresAt.value <= request.now then Verdict(Some(SessionHasExpired), Some(SessionExpired))
    else if id !in session.grants then Verdict(Some(MissingGrant), Some(AccessDenied))
    else if Expired(session.grants[id].expiresAt, request.now) then Verdict(Some(GrantExpired), Some(AccessDenied))
    else if !request.inputParses then Verdict(None, Some(InvalidInput))
    else if exists c | c in session.grants[id].constraints :: c !in request.passed then
      Verdict(Some(ConstraintRejected), Some(InvalidConstraint))
    else if session.aborted || request.aborted then Verdict(Some(Granted), Some(Aborted))
    else Verdict(Some(Granted), None)
  }

  class AccessSession {
    const expiresAt: Option<int>
    const grants: map<Text, Grant>
    var revoked: bool
    var aborted: bool

    ghost function View(): Session
      reads this
    {
      Session(expiresAt, grants, revoked, aborted)
    }

    constructor (expiresAt: Option<int>, grants: map<Text, Grant>)
      ensures View() == Session(expiresAt, grants, false, false)
    {
      this.expiresAt, this.grants := expiresAt, grants;
      revoked, aborted := false, false;
    }

    method Revoke()
      modifies this
      ensures View() == AfterRevoke(old(View()))
    {
      if revoked {
        return;
      }
      revoked := true;
      aborted := true;
    }

    method Check(request: Request) returns (verdict: Verdict)
      ensures verdict == Authorize(View(), request)
    {
      if revoked {
        return Verdict(Some(SessionWasRevoked), Some(SessionRevoked));
      }
      if expiresAt.Some? && expiresAt.value <= request.now {
        return Verdict(Some(SessionHasExpired), Some(SessionExpired));
      }
      var id := request.capability.id;
      if id !in grants {
        return Verdict(Some(MissingGrant), Some(AccessDenied));
      }
      var grant := grants[id];
      if Expired(grant.expiresAt, request.now) {
        return Verdict(Some(GrantExpired), Some(AccessDenied));
      }
      if !request.inputParses {
        return Verdict(None, Some(InvalidInput));
      }
      for i := 0 to |grant.constraints|
        invariant forall c | c in grant.constraints[..i] :: c in request.passed
      {
        assert grant.constraints[..i + 1] == grant.constraints[..i] + [grant.constraints[i]];
        if grant.constraints[i] !in request.passed {
          return Verdict(Some(ConstraintRejected), Some(InvalidConstraint));
        }
      }
      assert grant.constraints[..|grant.constraints|] == grant.constraints;
      if aborted || request.aborted {
        return Verdict(Some(Granted), Some(Aborted));
      }
      verdict := Verdict(Some(Granted), None);
    }
  }

  method CreateSession(registered: set<Text>, options: SessionOptions) returns (session: Result<AccessSession, CapabilityError>)
    ensures match session
            case Err(error) => NewSession(registered, options) == Err(error)
            case Ok(created) => fresh(created) && NewSession(registered, options) == Ok(created.View())
  {
    if |Trim(options.subject.id)| == 0 || |Trim(options.subject.sessionId)| == 0 {
      return Err(AccessDenied);
    }
    if ExpiryInvalid(options.expiresAt) {
      return Err(SessionExpired);
    }
    var grants: map<Text, Grant> := map[];
    for i := 0 to |options.grants|
      invariant Grants(registered, options.grants[..i]) == Ok(grants)
    {
      var grant := options.grants[i];
      assert options.grants[..i + 1][..i] == options.grants[..i];
      if ExpiryInvalid(grant.expiresAt) {
        GrantsFail(registered, options.grants, i + 1);
        return Err(AccessDenied);
      }
      if grant.capabilityId !in registered {
        GrantsFail(registered, options.grants, i + 1);
        return Err(NotFound);
      }
      if grant.capabilityId in grants {
        GrantsFail(registered, options.grants, i + 1);
        return Err(AccessDenied);
      }
      grants := grants[grant.capabilityId := grant];
    }
    assert options.grants[..|options.grants|] == options.grants;
    var created := new AccessSession(if options.expiresAt.Some? then Some(options.expiresAt.value.ms) else None, grants);
    session := Ok(created);
  }

  lemma {:induction false} GrantsFail(registered: set<Text>, grants: seq<Grant>, n: nat)
    requires n <= |grants| && Grants(registered, grants[..n]).Err?
    ensures Grants(registered, grants) == Err(Grants(registered, grants[..n]).error)
    decreases |grants| - n
  {
    if n == |grants| {
      assert grants[..n] == grants;
    } else {
      assert grants[..n + 1][..n] == grants[..n];
      GrantsFail(registered, grants, n + 1);
    }
  }

  predicate DistinctGrants(grants: seq<Grant>) {
    forall i, j | 0 <= i < j < |grants| :: grants[i].capabilityId != grants[j].capabilityId
  }

  predicate GrantUsable(registered: set<Text>, grant: Grant) {
    grant.capabilityId in registered && !ExpiryInvalid(grant.expiresAt)
  }

  lemma DistinctLast(before: seq<Grant>, last: Grant)
    ensures DistinctGrants(before + [last])
       <==> DistinctGrants(before) && forall g | g in before :: g.capabilityId != last.capabilityId
  {
    var grants := before + [last];
    if DistinctGrants(grants) {
      forall i, j | 0 <= i < j < |before|
        ensures before[i].capabilityId != before[j].capabilityId
      {
        assert grants[i] == before[i] && grants[j] == before[j];
      }
      forall g | g in before
        ensures g.capabilityId != last.capabilityId
      {
        var i :| 0 <= i < |before| && before[i] == g;
        assert grants[i].capabilityId != grants[|before|].capabilityId;
      }
    }
  }

  ghost predicate Holds(held: map<Text, Grant>, grants: seq<Grant>) {
    && (forall id | id in held :: held[id] in grants && held[id].capabilityId == id)
    && (forall g | g in grants :: g.capabilityId in held && held[g.capabilityId] == g)
  }

  lemma HoldsOneMore(held: map<Text, Grant>, before: seq<Grant>, last: Grant)
    requires Holds(held, before) && last.capabilityId !in held
    ensures Holds(held[last.capabilityId := last], before + [last])
  {
    var after, grants := held[last.capabilityId := last], before + [last];
    assert grants[|before|] == last;
    forall id | id in after
      ensures after[id] in grants && after[id].capabilityId == id
    {
      if id != last.capabilityId {
        assert held[id] in before;
      }
    }
  }

  // A session is granted exactly when every grant is usable and none is given twice; it then holds
  // exactly the grants it asked for.
  lemma {:induction false} GrantsExactly(registered: set<Text>, grants: seq<Grant>)
    ensures Grants(registered, grants).Ok? <==> DistinctGrants(grants) && forall g | g in grants :: GrantUsable(registered, g)
    ensures Grants(registered, grants).Ok? ==> Holds(Grants(registered, grants).value, grants)
  {
    hide DistinctGrants;
    if grants == [] {
      assert DistinctGrants([]) by { NoGrants(); }
    } else {
      var before, last := grants[..|grants| - 1], grants[|grants| - 1];
      GrantsExactly(registered, before);
      assert grants == before + [last];
      DistinctLast(before, last);
      if Grants(registered, before).Ok? {
        var held := Grants(registered, before).value;
        assert last.capabilityId in held <==> exists g | g in before :: g.capabilityId == last.capabilityId;
        if last.capabilityId !in held {
          HoldsOneMore(held, before, last);
        }
      }
    }
  }

  lemma NoGrants()
    ensures DistinctGrants([])
  {
  }

  // Which requests are let through

  // Nothing about the session itself stands in the way.
  predicate InForce(session: Session, now: int) {
    !session.revoked && (session.expiresAt.Some? ==> now < session.expiresAt.value)
  }

  // A grant for the identifier that has not run out.
  predicate IsGranted(session: Session, id: Text, now: int) {
    id in session.grants
    && match session.grants[id].expiresAt
       case Some(Finite(ms)) => now < ms
       case _ => true
  }

  predicate ConstraintsPass(session: Session, request: Request) {
    request.capability.id in session.grants
    && forall c | c in session.grants[request.capability.id].constraints :: c in request.passed
  }

  // A request is let through exactly if the session is in force and not aborted, grants the capability,
  // the input parses and passes every constraint of the grant, and the request is not aborted.
  lemma LetThroughExactly(session: Session, request: Request)
    ensures
      var verdict := Authorize(session, request);
      verdict.error.None? <==>
      && InForce(session, request.now) && IsGranted(session, request.capability.id, request.now)
      && request.inputParses && ConstraintsPass(session, request)
      && !session.aborted && !request.aborted
  {
  }

  // Every denial says why: which error, and what is written to the audit log.
  lemma DeniedForItsReason(session: Session, request: Request)
    ensures
      var verdict := Authorize(session, request);
      var id, now := request.capability.id, request.now;
      var granted := InForce(session, now) && IsGranted(session, id, now);
      && (verdict.error == Some(SessionRevoked) <==> session.revoked)
      && (verdict.audit == Some(SessionWasRevoked) <==> session.revoked)
      && (verdict.error == Some(SessionExpired) <==> !session.revoked && !InForce(session, now))
      && (verdict.audit == Some(SessionHasExpired) <==> !session.revoked && !InForce(session, now))
      && (verdict.error == Some(AccessDenied) <==> InForce(session, now) && !IsGranted(session, id, now))
      && (verdict.audit == Some(MissingGrant) <==> InForce(session, now) && id !in session.grants)
      && (verdict.audit == Some(GrantExpired) <==> InForce(session, now) && id in session.grants && !IsGranted(session, id, now))
      && (verdict.error == Some(InvalidInput) <==> granted && !request.inputParses)
      && (verdict.audit.None? <==> granted && !request.inputParses)
      && (verdict.error == Some(InvalidConstraint) <==> granted && request.inputParses && !ConstraintsPass(session, request))
      && (verdict.audit == Some(ConstraintRejected) <==> verdict.error == Some(InvalidConstraint))
      && (verdict.error == Some(Aborted) <==>
            granted && request.inputParses && ConstraintsPass(session, request) && (session.aborted || request.aborted))
      && (verdict.audit == Some(Granted) <==> verdict.error.None? || verdict.error == Some(Aborted))
  {
  }

  // A session is opened exactly if its subject is named, its expiry is a time, and every grant can be
  // given; it is then in force until that time, unless it is revoked, with exactly those grants.
  lemma OpenedExactly(registered: set<Text>, options: SessionOptions)
    ensures
      var created := NewSession(registered, options);
      && (created.Ok? <==>
            && Trim(options.subject.id) != [] && Trim(options.subject.sessionId) != [] && !ExpiryInvalid(options.expiresAt)
            && DistinctGrants(options.grants) && forall g | g in options.grants :: GrantUsable(registered, g))
      && (created.Ok? ==>
            && Holds(created.value.grants, options.grants) && !created.value.revoked && !created.value.aborted
            && (options.expiresAt.None? ==> created.value.expiresAt.None?)
            && (options.expiresAt.Some? ==>
                  created.value.expiresAt.Some? && options.expiresAt.value == Finite(created.value.expiresAt.value)))
  {
    hide Trim, Grants, DistinctGrants;
    GrantsExactly(registered, options.grants);
  }

  // Why a session is not opened

  // The grants up to position `n` can all be given.
  predicate Givable(registered: set<Text>, grants: seq<Grant>, n: nat)
    requires n <= |grants|
  {
    DistinctGrants(grants[..n]) && forall g | g in grants[..n] :: GrantUsable(registered, g)
  }

  // The first grant that cannot be given decides: one for a capability that nobody provides is not found,
  // one that expires at no time or repeats another is denied.
  lemma {:induction false} GrantRefusedForItsReason(registered: set<Text>, grants: seq<Grant>) returns (i: nat)
    ensures i <= |grants| && Givable(registered, grants, i)
    ensures
      var result := Grants(registered, grants);
      && (result.Ok? <==> i == |grants|)
      && (i < |grants| ==>
            && !Givable(registered, grants, i + 1)
            && (result == Err(NotFound) <==> !ExpiryInvalid(grants[i].expiresAt) && grants[i].capabilityId !in registered)
            && (result == Err(AccessDenied) <==> ExpiryInvalid(grants[i].expiresAt) || grants[i].capabilityId in registered))
  {
    hide DistinctGrants;
    if grants == [] {
      i := 0;
      NoGrants();
    } else {
      var n := |grants| - 1;
      var before, last := grants[..n], grants[n];
      i := GrantRefusedForItsReason(registered, before);
      assert before[..i] == grants[..i];
      if i < n {
        assert before[..i + 1] == grants[..i + 1];
      } else {
        assert before[..n] == before && grants[..n + 1] == grants;
        GrantsExactly(registered, before);
        GrantsExactly(registered, grants);
        if Grants(registered, grants).Ok? {
          i := n + 1;
        }
      }
    }
  }

  lemma OpeningRefusedForItsReason(registered: set<Text>, options: SessionOptions)
    ensures
      var created := NewSession(registered, options);
      if AllSpace(options.subject.id) || AllSpace(options.subject.sessionId) then created == Err(AccessDenied)
      else if ExpiryInvalid(options.expiresAt) then created == Err(SessionExpired)
      else created.Err? ==> Grants(registered, options.grants).Err? && created.error == Grants(registered, options.grants).error
  {
    hide Grants, Trim, AllSpace;
    TrimEmptyExactly(options.subject.id);
    TrimEmptyExactly(options.subject.sessionId);
  }
}
