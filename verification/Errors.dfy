/** The error vocabulary of the agent and the typed exceptions that carry it.

    Models `ErrorCode`, the code sets and `AgentError.__init__`
    (agent/src/reporting_agent/errors.py) and the app's mirror of the sets
    (app/lib/runs/state.ts). */
module Errors {
  import opened Options

  /** One code per way a run can end badly. */
  datatype ErrorCode =
    | AuthExpired | AuthFailed | ScopeUnverified | EmptyScope | CatalogUnusable | NoStatistics
    | TemplateInvalid | CompileFailed | RenderFailed | PdfConversionFailed | VerificationFailed | ReplayMismatch
    | Throttled | PartialCoverage | RegionUnreachable

  /** Any code a stream or a callback can name: an agent code, the two the app writes, the
      runtime-defect code, or one of the codes that describe the invocation. */
  datatype Code =
    | Agent(code: ErrorCode)
    | Timeout
    | SecretUnreadable
    | InternalError
    | InvocationLevel(name: string)

  const APP_WRITTEN_CODES: set<Code> := {Timeout, SecretUnreadable}

  predicate IsRowErrorCode(code: Code) {
    (code.Agent? && code.code != PartialCoverage) || code in APP_WRITTEN_CODES || code == InternalError
  }

  /** `_AGENT_ERROR_CODES`: what a `failed` callback may present. */
  predicate IsAgentErrorCode(code: Code) {
    IsRowErrorCode(code) && code !in APP_WRITTEN_CODES
  }

  // --- the exceptions ---

  function DefaultTerminal(code: ErrorCode): bool {
    code != RegionUnreachable && code != PartialCoverage
  }

  predicate Escalatable(code: ErrorCode) {
    code == RegionUnreachable
  }

  datatype RawError = RawError(code: ErrorCode, terminal: bool)

  /** An `AgentError` that construction let through. */
  type AgentError = e: RawError | e.terminal == DefaultTerminal(e.code) || Escalatable(e.code)
    witness RawError(AuthExpired, true)

  /** `AgentError.__init__`: `None` is the `ValueError` of an override the class refuses. */
  function Construct(code: ErrorCode, terminal: Option<bool>): (r: Option<AgentError>)
    ensures r.Some? ==> r.value.code == code && r.value.terminal == terminal.UnwrapOr(DefaultTerminal(code))
    ensures r.None? <==> terminal == Some(!DefaultTerminal(code)) && code != RegionUnreachable
  {
    var resolved := terminal.UnwrapOr(DefaultTerminal(code));
    if resolved != DefaultTerminal(code) && !Escalatable(code) then None
    else
      var e: AgentError := RawError(code, resolved);
      Some(e)
  }

  // --- the code a failed row carries ---

  /** `_row_error_code` (agent/src/reporting_agent/main.py). */
  function RowErrorCode(code: Option<Code>): (r: Option<Code>)
    ensures r.Some? <==> code.Some?
    ensures r.Some? ==> IsAgentErrorCode(r.value)
    ensures r.Some? && IsAgentErrorCode(code.value) ==> r == code
  {
    match code
    case None => None
    case Some(c) =>
      if c in APP_WRITTEN_CODES then Some(InternalError)
      else if IsRowErrorCode(c) then Some(c)
      else Some(InternalError)
  }
}
