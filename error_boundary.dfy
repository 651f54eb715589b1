/**
 * The error boundary (app/components/shared/ErrorBoundary.tsx).
 *
 * The boundary's state records whether a descendant has thrown while
 * rendering. Deriving the state from an error and choosing what to render
 * are pure functions; capturing, logging and retrying update the
 * component's `state` field and are methods of a class. `isDevelopment()`
 * and `NODE_ENV` come from the environment and are parameters here; the
 * console is a log of entries.
 */
module Boundary {
  import opened Wrappers

  /** A JavaScript `Error`: its `name` ("Error" for a plain one) and its `message`. */
  datatype Error = Error(name: string, message: string)

  /** React's `ErrorInfo`: the component stack at the point of failure. */
  datatype ErrorInfo = ErrorInfo(componentStack: string)

  /** `Error.prototype.toString`: the name, a colon and the message, dropping whichever is empty. */
  function ErrorToString(e: Error): (r: string)
    ensures e.name != "" && e.message != "" ==> r == e.name + ": " + e.message
    ensures e.name == "" ==> r == e.message
    ensures e.message == "" ==> r == e.name
  {
    if e.name == "" then e.message
    else if e.message == "" then e.name
    else e.name + ": " + e.message
  }

  /** The component's `state`: `error` and `errorInfo` are optional keys. */
  datatype BoundaryState = BoundaryState(hasError: bool, error: Option<Error>, errorInfo: Option<ErrorInfo>)

  const InitialState: BoundaryState := BoundaryState(false, None, None)

  /**
   * `getDerivedStateFromError` returns `{hasError: true, error}`; React merges
   * that partial state into the current one, so `errorInfo` keeps its value.
   */
  function DerivedStateFromError(s: BoundaryState, e: Error): (r: BoundaryState)
    ensures r.hasError && r.error == Some(e) && r.errorInfo == s.errorInfo
  {
    s.(hasError := true, error := Some(e))
  }

  /** `handleRetry`: every key back to its cleared value. */
  function Retried(s: BoundaryState): (r: BoundaryState)
    ensures !r.hasError && r.error.None? && r.errorInfo.None?
  {
    BoundaryState(false, None, None)
  }

  /** The states the boundary can be in: `hasError` exactly when an error is held, and no `errorInfo` ever. */
  predicate Reachable(s: BoundaryState) {
    (s.hasError <==> s.error.Some?) && s.errorInfo.None?
  }

  /** Capturing and retrying keep the boundary among its reachable states. */
  lemma TransitionsStayReachable(s: BoundaryState, e: Error)
    requires Reachable(s)
    ensures Reachable(DerivedStateFromError(s, e)) && Reachable(Retried(s))
    ensures Retried(DerivedStateFromError(s, e)) == InitialState
  {
  }

  /** A React node as far as truthiness goes: `null`/`undefined`/`false`, text, or an element. */
  datatype Node = Nothing | Text(text: string) | Element(tag: string)

  predicate Truthy(n: Node) {
    n.Element? || (n.Text? && n.text != "")
  }

  const DefaultHeading: string := "Oops! Something went wrong"
  const DefaultMessage: string :=
    "We encountered an unexpected error. Please try refreshing the page or contact support if the problem persists."
  const RetryLabel: string := "Try Again"
  const DetailsSummary: string := "Error Details (Development Only)"

  /** The development-only details block: its summary and the error text with the component stack. */
  datatype Details = Details(summary: string, body: string)

  /** What `render` returns. */
  datatype Rendered =
    | Children(children: Node)
    | Fallback(fallback: Node)
    | DefaultView(heading: string, message: string, button: string, details: Option<Details>)

  /** `render`: the children without an error, else the fallback when truthy, else the default view. */
  function Render(s: BoundaryState, children: Node, fallback: Node, isDevelopment: bool): (r: Rendered)
    ensures !s.hasError ==> r == Children(children)
    ensures s.hasError && Truthy(fallback) ==> r == Fallback(fallback)
    ensures s.hasError && !Truthy(fallback) ==>
              r.DefaultView? && r.heading == DefaultHeading && r.message == DefaultMessage && r.button == RetryLabel
    ensures r.DefaultView? ==> (r.details.Some? <==> isDevelopment && s.error.Some?)
    ensures r.DefaultView? && r.details.Some? ==>
              r.details.value.summary == DetailsSummary
              && r.details.value.body == ErrorToString(s.error.value)
                                         + (if s.errorInfo.Some? then s.errorInfo.value.componentStack else "")
  {
    if s.hasError then
      if Truthy(fallback) then Fallback(fallback)
      else
        var details :=
          if isDevelopment && s.error.Some? then
            var stack := match s.errorInfo case Some(info) => info.componentStack case None => "";
            Some(Details(DetailsSummary, ErrorToString(s.error.value) + stack))
          else None;
        DefaultView(DefaultHeading, DefaultMessage, RetryLabel, details)
    else Children(children)
  }

  /** In a reachable state the details show the error text alone: `errorInfo` is never set. */
  lemma DetailsCarryNoStack(s: BoundaryState, children: Node, fallback: Node)
    requires Reachable(s) && s.hasError && !Truthy(fallback)
    ensures Render(s, children, fallback, true).details == Some(Details(DetailsSummary, ErrorToString(s.error.value)))
    ensures Render(s, children, fallback, false).details.None?
  {
    assert ErrorToString(s.error.value) + "" == ErrorToString(s.error.value);
  }

  /** The component's tests: a child throwing "Test error", with and without a fallback, then a retry. */
  lemma DocumentedBehaviour(children: Node, fallback: Node)
    requires Truthy(fallback)
    ensures var s := DerivedStateFromError(InitialState, Error("Error", "Test error"));
            Render(s, children, Nothing, false) == DefaultView(DefaultHeading, DefaultMessage, RetryLabel, None)
            && Render(s, children, fallback, false) == Fallback(fallback)
            && Render(Retried(s), children, Nothing, false) == Children(children)
            && Render(s, children, Nothing, true).details
               == Some(Details(DetailsSummary, "Error: Test error"))
  {
    assert ErrorToString(Error("Error", "Test error")) + "" == "Error: Test error";
  }

  /** One console call: its prefix, the error and the error info. */
  datatype LogEntry = LogEntry(prefix: string, error: Error, info: ErrorInfo)

  /** `componentDidCatch` picks its prefix from `NODE_ENV`. */
  function CatchLabel(production: bool): (prefix: string)
    ensures production ==> prefix == "Error caught by boundary:"
    ensures !production ==> prefix == "ErrorBoundary caught an error:"
  {
    if production then "Error caught by boundary:" else "ErrorBoundary caught an error:"
  }

  /** The boundary component with its `state` field and the console it writes to. */
  class ErrorBoundary {
    var state: BoundaryState
    var console: seq<LogEntry>

    constructor()
      ensures state == InitialState && console == []
    {
      state := InitialState;
      console := [];
    }

    /**
     * A descendant throws: React derives the new state from the error and
     * then calls `componentDidCatch`, which logs once.
     */
    method Capture(e: Error, info: ErrorInfo, production: bool)
      modifies this
      ensures state == DerivedStateFromError(old(state), e)
      ensures console == old(console) + [LogEntry(CatchLabel(production), e, info)]
    {
      state := DerivedStateFromError(state, e);
      console := console + [LogEntry(CatchLabel(production), e, info)];
    }

    /** The "Try Again" button. */
    method HandleRetry()
      modifies this
      ensures state == Retried(old(state)) && console == old(console)
    {
      state := BoundaryState(false, None, None);
    }
  }
}
