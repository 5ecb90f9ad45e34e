/**
 * The access rules of the `admin_required` and `reviewer_required` view
 * decorators. A view is a function of the request; `adminOnly` is the
 * configured `CBNG_ADMIN_ONLY`.
 */
module Access {
  /** The part of a request the decorators read. */
  datatype Request = Request(path: string, isAuthenticated: bool, isAdmin: bool, isReviewer: bool)

  /** A redirect to the login page for `path`, a PermissionDenied, or the view's own response. */
  datatype Response<R> = RedirectToLogin(path: string) | PermissionDenied | Admitted(result: R)

  /** Who may see an admin-only view. */
  predicate AdminAllowed(req: Request)
  {
    req.isAdmin
  }

  /** Who may see a reviewer view. */
  predicate ReviewerAllowed(req: Request, adminOnly: bool)
  {
    req.isAdmin || (req.isReviewer && !adminOnly)
  }

  /** The wrapper `admin_required` puts around `view`. */
  function AdminRequired<R>(view: Request -> R, req: Request): (r: Response<R>)
    ensures !req.isAuthenticated <==> r == RedirectToLogin(req.path)
    ensures r.Admitted? <==> req.isAuthenticated && req.isAdmin
    ensures r.Admitted? ==> r.result == view(req)
    ensures r.PermissionDenied? <==> req.isAuthenticated && !req.isAdmin
  {
    if !req.isAuthenticated then RedirectToLogin(req.path)
    else if !AdminAllowed(req) then PermissionDenied
    else Admitted(view(req))
  }

  /** The wrapper `reviewer_required` puts around `view`. */
  function ReviewerRequired<R>(view: Request -> R, req: Request, adminOnly: bool): (r: Response<R>)
    ensures !req.isAuthenticated <==> r == RedirectToLogin(req.path)
    ensures r.Admitted? <==> req.isAuthenticated && (req.isAdmin || (req.isReviewer && !adminOnly))
    ensures r.Admitted? ==> r.result == view(req)
  {
    if !req.isAuthenticated then RedirectToLogin(req.path)
    else if !ReviewerAllowed(req, adminOnly) then PermissionDenied
    else Admitted(view(req))
  }

  /** Every request an admin view admits, a reviewer view admits too. */
  lemma AdminViewsAreStricter<R>(view: Request -> R, req: Request, adminOnly: bool)
    ensures AdminRequired(view, req).Admitted? ==> ReviewerRequired(view, req, adminOnly) == AdminRequired(view, req)
  {
  }

  /** In admin-only mode the two decorators coincide. */
  lemma AdminOnlyModeIsAdminRequired<R>(view: Request -> R, req: Request)
    ensures ReviewerRequired(view, req, true) == AdminRequired(view, req)
  {
  }

  /** The status codes the reviewer API answers with in the repository's tests. */
  function StatusCode<R>(r: Response<R>): int
  {
    match r
    case RedirectToLogin(_) => 302
    case PermissionDenied => 403
    case Admitted(_) => 200
  }

  /** Anonymous: 302; no rights: 403; a reviewer in admin-only mode: 403; an admin: 200. */
  lemma ReviewerApiCases(view: Request -> int, path: string)
    ensures StatusCode(ReviewerRequired(view, Request(path, false, false, false), false)) == 302
    ensures StatusCode(ReviewerRequired(view, Request(path, true, false, false), false)) == 403
    ensures StatusCode(ReviewerRequired(view, Request(path, true, false, true), true)) == 403
    ensures StatusCode(ReviewerRequired(view, Request(path, true, true, false), true)) == 200
    ensures StatusCode(ReviewerRequired(view, Request(path, true, false, true), false)) == 200
  {
  }
}
