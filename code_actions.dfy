// The V2 code-action requests and their `WithSelection` copy operation, through which the
// code-action service narrows a request to a new selection without touching the original.
module CodeActions {
  import opened Wrappers
  import opened Ranges
  import opened TextChange

  /** The properties every buffer request carries (the `Request` base record). */
  datatype RequestBase = RequestBase(line: int, column: int, buffer: Option<string>,
                                     changes: Option<seq<LinePositionSpanTextChange>>,
                                     applyChangesTogether: bool, fileName: Option<string>)

  /** `RunCodeActionRequest`: the action to run and what the client wants back. */
  datatype RunCodeActionRequest = RunCodeActionRequest(
    identifier: Option<string>,
    selection: Option<Range>,
    wantsTextChanges: bool,
    applyTextChanges: bool,
    wantsAllCodeActionOperations: bool,
    line: int,
    column: int,
    buffer: Option<string>,
    changes: Option<seq<LinePositionSpanTextChange>>,
    applyChangesTogether: bool,
    fileName: Option<string>)

  /** `GetCodeActionsRequest`: where to look for actions. */
  datatype GetCodeActionsRequest = GetCodeActionsRequest(
    selection: Option<Range>,
    line: int,
    column: int,
    buffer: Option<string>,
    changes: Option<seq<LinePositionSpanTextChange>>,
    applyChangesTogether: bool,
    fileName: Option<string>)

  function RunBase(r: RunCodeActionRequest): RequestBase {
    RequestBase(r.line, r.column, r.buffer, r.changes, r.applyChangesTogether, r.fileName)
  }

  function GetBase(r: GetCodeActionsRequest): RequestBase {
    RequestBase(r.line, r.column, r.buffer, r.changes, r.applyChangesTogether, r.fileName)
  }

  /** `RunCodeActionRequest.WithSelection`: a new record with every property but the selection copied. */
  function RunWithSelection(r: RunCodeActionRequest, newSelection: Option<Range>): (result: RunCodeActionRequest)
    ensures result.selection == newSelection
    ensures RunBase(result) == RunBase(r)
    ensures result.identifier == r.identifier
    ensures result.wantsTextChanges == r.wantsTextChanges && result.applyTextChanges == r.applyTextChanges
    ensures result.wantsAllCodeActionOperations == r.wantsAllCodeActionOperations
  {
    RunCodeActionRequest(
      identifier := r.identifier,
      selection := newSelection,
      wantsTextChanges := r.wantsTextChanges,
      applyTextChanges := r.applyTextChanges,
      wantsAllCodeActionOperations := r.wantsAllCodeActionOperations,
      line := r.line,
      column := r.column,
      buffer := r.buffer,
      changes := r.changes,
      applyChangesTogether := r.applyChangesTogether,
      fileName := r.fileName)
  }

  /** `GetCodeActionsRequest.WithSelection`: a new record with the six request properties copied. */
  function GetWithSelection(r: GetCodeActionsRequest, newSelection: Option<Range>): (result: GetCodeActionsRequest)
    ensures result.selection == newSelection
    ensures GetBase(result) == GetBase(r)
  {
    GetCodeActionsRequest(
      selection := newSelection,
      line := r.line,
      column := r.column,
      buffer := r.buffer,
      changes := r.changes,
      applyChangesTogether := r.applyChangesTogether,
      fileName := r.fileName)
  }

  /** `ICodeActionRequest`: the two request kinds the code-action service handles alike. */
  datatype CodeActionRequest = Run(run: RunCodeActionRequest) | Get(get: GetCodeActionsRequest)

  function Selection(r: CodeActionRequest): Option<Range> {
    match r
    case Run(run) => run.selection
    case Get(get) => get.selection
  }

  function Base(r: CodeActionRequest): RequestBase {
    match r
    case Run(run) => RunBase(run)
    case Get(get) => GetBase(get)
  }

  /** `ICodeActionRequest.WithSelection`: the copy is of the receiver's own kind. */
  function WithSelection(r: CodeActionRequest, newSelection: Option<Range>): (result: CodeActionRequest)
    ensures result.Run? <==> r.Run?
    ensures Selection(result) == newSelection
    ensures Base(result) == Base(r)
  {
    match r
    case Run(run) => Run(RunWithSelection(run, newSelection))
    case Get(get) => Get(GetWithSelection(get, newSelection))
  }

  /** Two requests of the same kind that agree on everything but the selection. */
  predicate SameButSelection(a: CodeActionRequest, b: CodeActionRequest) {
    match a
    case Run(x) => b.Run? && b.run.(selection := x.selection) == x
    case Get(x) => b.Get? && b.get.(selection := x.selection) == x
  }

  /** A copy differs from its receiver in the selection alone. */
  lemma WithSelectionChangesOnlySelection(r: CodeActionRequest, newSelection: Option<Range>)
    ensures SameButSelection(r, WithSelection(r, newSelection))
  {
  }

  /** Re-selecting the receiver's own selection reproduces it. */
  lemma WithOwnSelectionIsIdentity(r: CodeActionRequest)
    ensures WithSelection(r, Selection(r)) == r
  {
  }

  /** The last selection applied wins, so applying one twice is applying it once. */
  lemma LastSelectionWins(r: CodeActionRequest, first: Option<Range>, second: Option<Range>)
    ensures WithSelection(WithSelection(r, first), second) == WithSelection(r, second)
    ensures WithSelection(WithSelection(r, second), second) == WithSelection(r, second)
  {
  }

  /** Requests that agree apart from their selections become equal once given the same one. */
  lemma SelectionDeterminesCopy(a: CodeActionRequest, b: CodeActionRequest, s: Option<Range>)
    requires SameButSelection(a, b)
    ensures WithSelection(a, s) == WithSelection(b, s)
  {
  }
}
