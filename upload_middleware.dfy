/**
 * The authorisation step of the image upload route: the same e-mail AND
 * name allow-list test as the API gate, but failing by throwing, and
 * handing the upload the user's id as metadata.
 */
module UploadMiddleware {
  import opened Options
  import opened ApiAuth

  /** What the middleware does: return the upload's metadata, or throw. */
  datatype MiddlewareResult = Metadata(userId: string) | Thrown(message: string)

  /** The `.middleware` callback of `imageUploader`. */
  function Middleware(session: Option<Session>, emails: seq<string>, ids: seq<string>): (r: MiddlewareResult)
    ensures session.None? ==> r == Thrown("Unauthorized")
    ensures session.Some? && IsListed(session.value.user, emails, ids) ==> r == Metadata(session.value.user.id)
    ensures session.Some? && !IsListed(session.value.user, emails, ids) ==> r == Thrown("Forbidden")
  {
    match session
    case None => Thrown("Unauthorized")
    case Some(s) =>
      if s.user.email in emails && s.user.name in ids then Metadata(s.user.id)
      else Thrown("Forbidden")
  }

  /** The middleware and `protectAPI` make the same decision on the same
      session and lists, with the same words for each refusal; what an
      accepted upload carries is the user's id, although the list checked
      is the one of names. */
  lemma MiddlewareAgreesWithProtectApi(session: Option<Session>, emails: seq<string>, ids: seq<string>)
    ensures var m := Middleware(session, emails, ids);
      var a := ProtectApi(session, emails, ids);
      && (m.Metadata? <==> a.Allowed?)
      && (m.Metadata? ==> m.userId == a.session.user.id)
      && (m.Thrown? ==> m.message == a.error)
  {
  }

  /** The id returned need not be listed anywhere: only the name is checked. */
  lemma IdIsNotChecked()
    ensures Middleware(Some(Session(User("42", "a@x", "me"))), ["a@x"], ["me"]) == Metadata("42")
  {
  }
}
