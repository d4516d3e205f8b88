/** How a kernel is presented as a "session" to the tool's caller (utils/session-formatter.ts). */
module SessionFormatter {
  import opened Wrappers
  import opened JupyterTypes

  /** `SessionInfo`: `kernel_name` is an optional field. */
  datatype SessionInfo = SessionInfo(sessionId: string, kernelId: string, status: string,
                                     kernelName: Option<string>, createdAt: string)

  /** `kernelToSessionInfo(kernel, includeKernelName = true)`. */
  function KernelToSessionInfo(kernel: Kernel, includeKernelName: bool := true): (info: SessionInfo)
    // the handle given out for a kernel is the kernel's own id
    ensures info.sessionId == kernel.id && info.kernelId == kernel.id
    ensures info.status == kernel.status && info.createdAt == kernel.startedAt
    ensures info.kernelName.Some? <==> includeKernelName
  {
    SessionInfo(kernel.id, kernel.id, kernel.status,
                if includeKernelName then Some(kernel.name) else None, kernel.startedAt)
  }

  /** With its kernel name included, a session record holds the whole kernel: the kernel can be rebuilt from it. */
  lemma KernelRecoverable(kernel: Kernel)
    ensures var info := KernelToSessionInfo(kernel);
      info.kernelName.Some? && Kernel(info.kernelId, info.kernelName.value, info.status, info.createdAt) == kernel
  {
  }

  /** `kernelsToSessionList(kernels, includeKernelName = true)`: one record per kernel, in order. */
  function KernelsToSessionList(kernels: seq<Kernel>, includeKernelName: bool := true): (infos: seq<SessionInfo>)
    ensures |infos| == |kernels|
    ensures forall i :: 0 <= i < |kernels| ==> infos[i] == KernelToSessionInfo(kernels[i], includeKernelName)
  {
    seq(|kernels|, i requires 0 <= i < |kernels| => KernelToSessionInfo(kernels[i], includeKernelName))
  }

  /** Every listed handle is the id of the kernel at the same position. */
  lemma ListedHandlesAreKernelIds(kernels: seq<Kernel>, includeKernelName: bool)
    ensures forall i :: 0 <= i < |kernels| ==>
      KernelsToSessionList(kernels, includeKernelName)[i].sessionId == kernels[i].id
  {
  }
}
