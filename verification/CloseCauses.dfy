/** Who calls `close` on a terminal session, and the reason text each caller passes. */
module CloseCauses {
  import opened Wrappers

  /** `Browser` carries the reason of a close signal, if its data decodes.
    * A reason is a Go string: one char stands for one byte. */
  datatype Cause =
    | Browser(decoded: Option<string>)
    | PtyStartFailed
    | ShellExit
    | InvalidFrame
    | TerminalUnavailable
    | PtyWriteFailed
    | InvalidResize
    | RecoveryTimeout(timer: nat)
    | ChannelClosed
    | AgentShutdown

  const MAX_REASON_BYTES := 64

  function BrowserReason(decoded: Option<string>): (reason: string)
    ensures 1 <= |reason| <= MAX_REASON_BYTES
  {
    if decoded.Some? && decoded.value != "" && |decoded.value| <= MAX_REASON_BYTES
    then decoded.value
    else "browser_closed"
  }

  function Reason(cause: Cause): string {
    match cause
    case Browser(decoded) => BrowserReason(decoded)
    case PtyStartFailed => "pty_start_failed"
    case ShellExit => "shell_exit"
    case InvalidFrame => "invalid_frame"
    case TerminalUnavailable => "terminal_unavailable"
    case PtyWriteFailed => "pty_write_failed"
    case InvalidResize => "invalid_resize"
    case RecoveryTimeout(_) => "recovery_timeout"
    case ChannelClosed => "channel_closed"
    case AgentShutdown => "agent_shutdown"
  }

  /** A browser's reason passes through exactly if it has 1 to 64 bytes. */
  lemma ReasonPassesThrough(reason: string)
    ensures BrowserReason(Some(reason)) == reason <==> 1 <= |reason| <= 64
  {
  }

  /** The text "recovery_timeout" comes from a timer, or from a close signal that says so. */
  lemma TimeoutText(cause: Cause)
    ensures Reason(cause) == "recovery_timeout" <==>
      cause.RecoveryTimeout? || cause == Browser(Some("recovery_timeout"))
  {
    if cause.Browser? {
      assert "browser_closed"[0] != "recovery_timeout"[0];
    } else if !cause.RecoveryTimeout? {
      assert Reason(cause)[0] != 'r';
    }
  }
}
