/**
 * Turning a tool's `session_id` into a kernel id (utils/session-resolver.ts). A handle is either the
 * id of a notebook session (then its kernel is used) or, for a kernel started without a notebook,
 * the kernel id itself. The same function is copied verbatim into tools/execute-code.ts and
 * tools/get-variables.ts; all three are this one definition.
 */
module SessionResolver {
  import opened Wrappers
  import opened JsArrays
  import opened JupyterTypes
  import SessionFormatter

  /** The test `resolveKernelId` applies to each listed session: only the session id is compared. */
  function IdMatches(sessionId: string): Session -> bool {
    (s: Session) => s.id == sessionId
  }

  /**
   * `resolveKernelId(sessionId)`, with the session listing as an input: `None` when listing failed.
   * The kernel id of the first session with that id, else the handle itself.
   */
  function ResolveKernelId(listing: Option<seq<Session>>, sessionId: string): (kernelId: string)
    // a failed listing, or no session with that id, leaves the handle unchanged
    ensures listing.None? ==> kernelId == sessionId
    ensures listing.Some? && (forall i :: 0 <= i < |listing.value| ==> listing.value[i].id != sessionId) ==>
      kernelId == sessionId
    // otherwise the result is the kernel of a session with that id
    ensures listing.Some? && (exists i :: 0 <= i < |listing.value| && listing.value[i].id == sessionId) ==>
      exists i :: 0 <= i < |listing.value| && listing.value[i].id == sessionId && kernelId == listing.value[i].kernel.id
  {
    match listing
    case None => sessionId
    case Some(sessions) =>
      match Find(sessions, IdMatches(sessionId))
      case Some(session) => session.kernel.id
      case None => sessionId
  }

  /** Among several sessions with the handle as id, the first listed one decides. */
  lemma ResolvesToFirstMatch(sessions: seq<Session>, sessionId: string, i: nat)
    requires i < |sessions| && sessions[i].id == sessionId
    requires forall j :: 0 <= j < i ==> sessions[j].id != sessionId
    ensures ResolveKernelId(Some(sessions), sessionId) == sessions[i].kernel.id
  {
    FindIsFirst(sessions, IdMatches(sessionId), i);
  }

  /** The result is the handle or the kernel id of some listed session. */
  lemma HandleOrListedKernel(listing: Option<seq<Session>>, sessionId: string)
    ensures var k := ResolveKernelId(listing, sessionId);
      k == sessionId || (listing.Some? && exists s :: s in listing.value && k == s.kernel.id)
  {
    var k := ResolveKernelId(listing, sessionId);
    if k != sessionId {
      var i :| 0 <= i < |listing.value| && listing.value[i].id == sessionId && k == listing.value[i].kernel.id;
      assert listing.value[i] in listing.value;
    }
  }

  /**
   * The fallback is sound for kernels handed out without a notebook: their handle is the kernel id,
   * and unless a session happens to carry that id, it resolves to that kernel.
   */
  lemma KernelHandleResolvesToKernel(listing: Option<seq<Session>>, kernel: Kernel, includeKernelName: bool)
    requires listing.Some? ==> forall i :: 0 <= i < |listing.value| ==> listing.value[i].id != kernel.id
    ensures ResolveKernelId(listing, SessionFormatter.KernelToSessionInfo(kernel, includeKernelName).sessionId) == kernel.id
  {
  }
}
