/**
 * The allow-list gate in front of the protected API routes: the allowed
 * e-mail addresses and GitHub handles come from comma-separated environment
 * variables, and a request passes only when its session's e-mail AND name
 * are both listed.
 */
module ApiAuth {
  import opened Text
  import opened Options

  datatype User = User(id: string, email: string, name: string)

  datatype Session = Session(user: User)

  /** The result of `protectAPI`: the session, or an error response. */
  datatype AuthResult = Allowed(session: Session) | Denied(status: int, error: string)

  /** An allow-list: the raw pieces of the variable split on commas, untrimmed. */
  function AllowList(env: string): (r: seq<string>)
    ensures |r| >= 1
  {
    Split(env, ',')
  }

  /** The conjunction both gates test: the e-mail among the allowed
      e-mails and the name among the allowed ids, by exact string equality. */
  predicate IsListed(user: User, emails: seq<string>, ids: seq<string>)
  {
    user.email in emails && user.name in ids
  }

  /** `protectAPI`, given the session lookup's result and the two lists. */
  function ProtectApi(session: Option<Session>, emails: seq<string>, ids: seq<string>): (r: AuthResult)
    ensures session.None? ==> r == Denied(401, "Unauthorized")
    ensures session.Some? ==> (r.Allowed? <==> IsListed(session.value.user, emails, ids))
    ensures r.Allowed? ==> session == Some(r.session)
    ensures r.Denied? ==> (r.status == 401 <==> session.None?)
    ensures r.Denied? && session.Some? ==> r == Denied(403, "Forbidden")
  {
    match session
    case None => Denied(401, "Unauthorized")
    case Some(s) =>
      if s.user.email in emails && s.user.name in ids then Allowed(s)
      else Denied(403, "Forbidden")
  }

  /** Without a session the lists are never consulted. */
  lemma NoSessionIgnoresLists(emails1: seq<string>, ids1: seq<string>, emails2: seq<string>, ids2: seq<string>)
    ensures ProtectApi(None, emails1, ids1) == ProtectApi(None, emails2, ids2) == Denied(401, "Unauthorized")
  {
  }

  /** Matching only one of the two lists is not enough. */
  lemma OneListIsNotEnough(s: Session, emails: seq<string>, ids: seq<string>)
    requires (s.user.email in emails) != (s.user.name in ids)
    ensures ProtectApi(Some(s), emails, ids) == Denied(403, "Forbidden")
  {
  }

  /** The pieces are not trimmed: a space after a comma stays part of the
      next entry, so a user whose e-mail lacks it is refused. */
  lemma PiecesAreUntrimmed()
    ensures AllowList("a@x, b@x") == ["a@x", " b@x"]
    ensures "b@x" !in AllowList("a@x, b@x")
  {
    assert "a@x, b@x" == "a@x" + [','] + " b@x";
    SplitNoSep(" b@x", ',');
    SplitAtSep("a@x", " b@x", ',');
    assert "b@x" != " b@x";
  }

  /** A trailing comma adds an empty entry. */
  lemma TrailingCommaAddsEmpty()
    ensures AllowList("a,") == ["a", ""]
  {
    assert "a," == "a" + [','] + "";
    SplitAtSep("a", "", ',');
  }

  /** Membership is case-sensitive. */
  lemma MembershipIsCaseSensitive(u: User)
    requires u.email == "A@x" && u.name == "me"
    ensures ProtectApi(Some(Session(u)), ["a@x"], ["me"]) == Denied(403, "Forbidden")
  {
    assert "A@x" != "a@x";
  }
}
