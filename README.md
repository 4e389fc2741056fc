# OmniSharp core, modelled and proved in Dafny

OmniSharp is a language server for C#. It runs on top of the Roslyn compiler platform and speaks to editors over stdio or HTTP. This project models the deterministic logic that surrounds the compiler and the transports. Properties of each part are proved with the Dafny verifier.

Each source file of the core is modelled as one Dafny module:

- `SemanticVersioning` (`semantic_version.dfy`) covers `SemanticVersion`. This is Semantic Versioning 2.0.0:
  - the `X.Y.Z` core of section 2, with no leading zeros and unsigned 32-bit parts;
  - the pre-release and build labels of sections 9 and 10;
  - the precedence of section 11.

  It contains the parser (`TryParse` and `Parse`), the renderer, `CompareTo` with its pre-release rules, and the operators. The .NET regular expressions are written as character-class predicates and small matchers. In the source, `ComparePreLabel` is a `for` loop with early returns, so it is a method proved against the comparison function.
- `SdkInstanceProvider` covers how the .NET SDK provider chooses an SDK:
  - version validation;
  - the `.version` file scan, which is a loop over the file's lines passed in as input;
  - the filter `IncludeSdkInstance`;
  - the early return of `GetInstances`.
- `DotNetCliService` covers:
  - how the `dotnet` executable path is chosen;
  - `RemoveMSBuildEnvironmentVariables`, which mutates a dictionary in place (an `EnvironmentVariables` class);
  - the environment handed to a started process;
  - `IsLegacy`.
- `ZeroBasedIndexConverter` covers the JSON converter that shifts wire indices between zero-based and one-based mode:
  - `CanConvert`;
  - `ReadJson`;
  - `WriteJson`, including its in-place increment of an `int[]`, which is a Dafny `array<int>`.
- `TextChange`, `SemanticHighlightSpan` and `Ranges` cover three value types:
  - `LinePositionSpanTextChange`, with its equality, hash and escaped rendering;
  - `SemanticHighlightSpan`, with its ordering, equality, hash and null-lifted operators;
  - the V2 `Range`, with `Contains` and `IsValid`.
- `CodeActions` covers `WithSelection` on the two code-action request records.
- `Responses` covers `QuickFixResponse.Merge` and `RunFixAllResponse.Merge`.
- `EndpointMiddleware` covers the HTTP middleware as a class:
  - the case-insensitive set of known endpoints;
  - the table of handlers, each built on first use;
  - the choice of predicate for each endpoint;
  - the buffer-update pre-step;
  - `Invoke`, which either dispatches or passes the request to the next handler.
- `CakeRequestHandler` covers the delegating handler pipeline of the Cake host:
  - the cached endpoint name;
  - the memoised service lookup;
  - the fixed order of the steps in `Handle`, where resolving the service, translating the request, delegating and translating the response may each throw.
- `InformationServices` covers the project-information and workspace-information services. Both aggregate the models of the initialized project systems into a response dictionary. Each system's model call is a parameter; it returns a model, null, or the exception it threw.
- `WorkspaceInitializer` covers `Initialize` and `ProvideWorkspaceOptions`:
  - the project event forwarder comes first;
  - each project system is initialized according to its configuration section;
  - a failing system or provider is isolated;
  - workspace options are supplied in `Order` order.

  An event trace records what ran.
- `MSBuildProjectSystem` covers the MSBuild project system:
  - initial project discovery, from a solution, a solution filter or a directory;
  - the work queue that loads each project once;
  - the reconciliation of documents, project references and metadata references against the workspace;
  - parse and compilation options;
  - file events;
  - the unresolved-dependency check;
  - project-model queries.
- `CakeProjectSystem` covers the Cake project system:
  - how Cake scripts are added and removed;
  - the reaction to file events;
  - how references and usings are reconciled when a script changes;
  - project-model queries.
- `DiagnosticWorkerComposer` covers the diagnostic-worker composer. This is a two-state machine that swaps the plain worker and the analyzer worker as the options change.
- `MSBuildLocator` covers the register-once rule of the MSBuild locator and the collection of instances from its providers.
- `ProjectBlock` covers the `Project("…") = "…", "…", "…"` block parser of solution files and the unsupported-project test.
- `DocumentationComment` covers the XML documentation-comment model:
  - the section-routing loop of `From`, over the XML nodes an abstract reader yields, or the `XmlException` it throws;
  - the string helpers;
  - the parameter lookups.
- `CodeStructure` covers the `CodeElement` builder.
- `LocationPaths` covers how `RoslynExtensionsOptions` normalises location paths.
- `OmniSharpEnvironment` covers the decisions made by the constructor of `OmniSharpEnvironment`.
- `FileWatching`, `Paths`, `Text` and `Wrappers` are shared helpers:
  - file-change kinds;
  - Unix path operations;
  - character and string functions;
  - `Option`, `Result` and the exception kinds the source throws.

The Roslyn workspace is modelled as maps and sets keyed by project ids and paths. The file system is represented by file-existence predicates or a finite set of files on disk. Configuration settings, such as `UseZeroBasedIndices` and the environment variables, are passed in as parameters.

Where the source throws, the model returns an exception kind (`Throws(...)` or `Failure(...)`). Nothing relies on a precondition that excludes an input the source accepts.

## Model

| member | source | states |
|---|---|---|
| SemanticVersioning.AnchoredText | src/OmniSharp.Abstractions/SemanticVersion.cs:18-20 | a match of an anchored pattern covers a prefix of the input that the pattern's body accepts; with an anchor at the true end it is the whole input or nothing |
| SemanticVersioning.ParseUInt32 | src/OmniSharp.Abstractions/SemanticVersion.cs:178-191 | `uint.TryParse` of a digit group succeeds iff its value fits in 32 bits, and then yields that value |
| SemanticVersioning.CreateWithLabels | src/OmniSharp.Abstractions/SemanticVersion.cs:37-48 | the five-argument constructor keeps the three numbers; it succeeds iff each non-empty label matches `LabelUnitRegEx`, and then a non-empty pre-release label is stored as a label unit |
| SemanticVersioning.StoredLabel | src/OmniSharp.Abstractions/SemanticVersion.cs:40-47 | a null or empty label stores nothing; a non-empty one that does not match throws `ArgumentOutOfRangeException` from `Captures[0]`; a stored label is a label unit at the start of the text, and with the end anchor it is the whole text |
| SemanticVersioning.LabelGroups | src/OmniSharp.Abstractions/SemanticVersion.cs:19 | the pre-release group of `LabelRegEx` never holds a '+' |
| SemanticVersioning.CreateWithLabel | src/OmniSharp.Abstractions/SemanticVersion.cs:60-75 | the one-label constructor gives a plain version for "", throws only `FormatException`, and otherwise sets both labels, which put back together around the first '+' give the label |
| SemanticVersioning.SplitAt | src/OmniSharp.Abstractions/SemanticVersion.cs:111-159 | the five branches of `TryParse`: a pre-release part exactly when the dash index is kept, a build part exactly when there is a '+' |
| SemanticVersioning.SplitAtReassembles | src/OmniSharp.Abstractions/SemanticVersion.cs:111-159 | for indices of a '-' and a '+', the parts cut by `SplitAt` put back together give the input |
| SemanticVersioning.SplitReassembles | src/OmniSharp.Abstractions/SemanticVersion.cs:111-159 | the parts `TryParse` cuts its input into put back together give the input |
| SemanticVersioning.SplitRule | src/OmniSharp.Abstractions/SemanticVersion.cs:111-159 | a '-' before the first '+' opens the pre-release part, up to the '+' or the end; a '+' before any '-' leaves no pre-release part and opens the build part; no separator leaves both out |
| SemanticVersioning.SplitKeepsAbsent | src/OmniSharp.Abstractions/SemanticVersion.cs:111-159 | no part holds a character the input does not hold |
| SemanticVersioning.TryParseThrows | src/OmniSharp.Abstractions/SemanticVersion.cs:94-103 | against its documentation, `TryParse` throws `FormatException` exactly for a null input or one ending in '-', '+' or '.' |
| SemanticVersioning.Parse | src/OmniSharp.Abstractions/SemanticVersion.cs:85-90 | a null or empty input throws `FormatException`; otherwise the `TryParse` outcome (`null` for false) |
| SemanticVersioning.ParseNumbersOfCore | src/OmniSharp.Abstractions/SemanticVersion.cs:172-191 | the version part of a rendering parses back to its three numbers |
| SemanticVersioning.ParseNumbersRendering | src/OmniSharp.Abstractions/SemanticVersion.cs:18-191 | a version part the strictly anchored pattern accepts is the rendering of the numbers it yields (no leading zeros, no sign) |
| SemanticVersioning.ParsePartsAccepts | src/OmniSharp.Abstractions/SemanticVersion.cs:161-202 | a version built from the parts means: no part missing, the numbers parsed, both labels matched, and the constructor built it |
| SemanticVersioning.ParseWithAccepts | src/OmniSharp.Abstractions/SemanticVersion.cs:98-203 | a successful parse means: no final separator, no part missing, the numbers parsed, both labels matched, and the constructor built the version |
| SemanticVersioning.TryParse | src/OmniSharp.Abstractions/SemanticVersion.cs:98-203 | a failed parse throws only `FormatException`, and a parsed version carries labels that match `LabelUnitRegEx` |
| SemanticVersioning.CreateWithLabelsStrict | src/OmniSharp.Abstractions/SemanticVersion.cs:37-48 | with the strict anchor, well-formed labels are stored exactly as given |
| SemanticVersioning.StrictParseRoundTrip | src/OmniSharp.Abstractions/SemanticVersion.cs:98-209 | canonical round trip of the strictly anchored parser: a parsed version renders as its input, and is canonical |
| SemanticVersioning.SplitOfRendering | src/OmniSharp.Abstractions/SemanticVersion.cs:111-209 | `TryParse` cuts the rendering of a canonical version back into its version part and its two labels |
| SemanticVersioning.RenderingLayout | src/OmniSharp.Abstractions/SemanticVersion.cs:208-209 | `ToString` is `M.m.p`, then `-pre` and `+build` for the labels that are present |
| SemanticVersioning.ToString | src/OmniSharp.Abstractions/SemanticVersion.cs:208-209 | the rendering starts with `Major.Minor.Patch`, is exactly that when both labels are empty, and otherwise goes on with `-` before a pre-release label or `+` before a build label |
| SemanticVersioning.ParseWithParts | src/OmniSharp.Abstractions/SemanticVersion.cs:100-203 | past the null and final-separator checks, `TryParse` builds the version from the parts |
| SemanticVersioning.ParsePartsSucceed | src/OmniSharp.Abstractions/SemanticVersion.cs:161-202 | when every stage succeeds, `TryParse` returns the version the constructor builds |
| SemanticVersioning.CreateWithValidLabels | src/OmniSharp.Abstractions/SemanticVersion.cs:37-48 | a version whose labels are absent or well formed is rebuilt unchanged by the constructor |
| SemanticVersioning.RenderingParses | src/OmniSharp.Abstractions/SemanticVersion.cs:98-209 | every canonical version is parsed back from its rendering, by either parser |
| SemanticVersioning.ParsersAgreeWithoutLineBreak | src/OmniSharp.Abstractions/SemanticVersion.cs:18-203 | the parser as written and the strictly anchored one agree on every input without a line feed |
| SemanticVersioning.LabelSplitRule | src/OmniSharp.Abstractions/SemanticVersion.cs:111-159 | in a parsed version, a '-' before the first '+' starts the pre-release label, which ends at that '+'; a '-' after the first '+' belongs to the build label and the pre-release label is null |
| SemanticVersioning.CoreMatchesBeforeLineBreak | src/OmniSharp.Abstractions/SemanticVersion.cs:18 | .NET's `$` lets `VersionSansRegEx` match a version part followed by one final line feed |
| SemanticVersioning.LineBreakParses | src/OmniSharp.Abstractions/SemanticVersion.cs:98-203 | `TryParse` accepts a plain version followed by a line feed |
| SemanticVersioning.TrailingLineBreakAccepted | src/OmniSharp.Abstractions/SemanticVersion.cs:98-209 | as written, `TryParse("1.2.3\n")`-style inputs parse, and the version renders without the line feed, so the round trip fails |
| SemanticVersioning.ParseInt32 | src/OmniSharp.Abstractions/SemanticVersion.cs:295-296 | `int.TryParse` yields only 32-bit values |
| SemanticVersioning.CompareIdentifiers | src/OmniSharp.Abstractions/SemanticVersion.cs:293-314 | the sign of the comparison of one pair of identifiers: both numeric by value, a numeric one lower, else ordinally |
| SemanticVersioning.NumericIdentifiersAreInt32 | src/OmniSharp.Abstractions/SemanticVersion.cs:295-301 | identifiers go through `int.TryParse`: for every digit string, a leading zero changes nothing (so "01" ties with "1"), and a leading '-' gives the negated value when it fits in an `int` (so "-1" ranks below "0") |
| SemanticVersioning.ParseInt32OfDigits | src/OmniSharp.Abstractions/SemanticVersion.cs:295-296 | `int.TryParse` of a digit string gives its value exactly when that is at most `int.MaxValue` |
| SemanticVersioning.ParseInt32OfNegated | src/OmniSharp.Abstractions/SemanticVersion.cs:295-296 | `int.TryParse` of '-' and a digit string gives the negated value exactly when that is at least `int.MinValue` |
| SemanticVersioning.CompareIdentifierLists | src/OmniSharp.Abstractions/SemanticVersion.cs:286-317 | the sign of the comparison of two identifier lists: the first pair that differs decides, else the longer list ranks higher |
| SemanticVersioning.PreLabelOrder | src/OmniSharp.Abstractions/SemanticVersion.cs:280-317 | the sign of the pre-release precedence: no label ranks above any label, two absent labels tie, else the identifier lists decide |
| SemanticVersioning.ComparePreLabel | src/OmniSharp.Abstractions/SemanticVersion.cs:269-318 | the identifier loop with its early returns has the sign of `PreLabelOrder`: no label ranks above any label, then identifiers pairwise (both numeric: by value; one numeric: it ranks lower; else ordinally), then the longer list ranks higher |
| SemanticVersioning.CompareIdentifierListsStep | src/OmniSharp.Abstractions/SemanticVersion.cs:291-315 | one round of the loop: a difference decides, otherwise the next pair |
| SemanticVersioning.CompareIdentifierListsEnd | src/OmniSharp.Abstractions/SemanticVersion.cs:317 | when one list runs out, the lengths decide |
| SemanticVersioning.CompareTo | src/OmniSharp.Abstractions/SemanticVersion.cs:226-235 | the sign of the comparison: null ranks lowest (1); (Major, Minor, Patch) are compared lexicographically, smaller numbers giving -1 and larger ones 1; 0 only with equal numbers; with equal numbers, the sign of the pre-release order |
| SemanticVersioning.Compare | src/OmniSharp.Abstractions/SemanticVersion.cs:214-215 | throws `ArgumentNullException` exactly for a null first argument |
| SemanticVersioning.Apply | src/OmniSharp.Abstractions/SemanticVersion.cs:214-267 | the four operators throw for a null left operand, and against a null right operand only `>` and `>=` hold |
| SemanticVersioning.CompareIdentifiersAntisymmetric | src/OmniSharp.Abstractions/SemanticVersion.cs:293-314 | swapping two identifiers negates their comparison |
| SemanticVersioning.CompareIdentifierListsAntisymmetric | src/OmniSharp.Abstractions/SemanticVersion.cs:286-317 | swapping two identifier lists negates their comparison |
| SemanticVersioning.CompareToAntisymmetric | src/OmniSharp.Abstractions/SemanticVersion.cs:226-318 | for non-null a and b, `a.CompareTo(b) == -b.CompareTo(a)` |
| SemanticVersioning.CompareIdentifiersEquivalent | src/OmniSharp.Abstractions/SemanticVersion.cs:293-314 | identifiers that compare equal compare alike with any third |
| SemanticVersioning.CompareIdentifiersTransitive | src/OmniSharp.Abstractions/SemanticVersion.cs:293-314 | the identifier order is transitive, strictly where either step is strict |
| SemanticVersioning.CompareIdentifierListsTransitive | src/OmniSharp.Abstractions/SemanticVersion.cs:286-317 | the identifier-list order is transitive |
| SemanticVersioning.CompareToTransitive | src/OmniSharp.Abstractions/SemanticVersion.cs:226-318 | `CompareTo` is transitive on non-null versions |
| SemanticVersioning.BuildLabelIgnored | src/OmniSharp.Abstractions/SemanticVersion.cs:226-235 | the build label takes no part in precedence |
| SemanticVersioning.PreReleaseRanksLower | src/OmniSharp.Abstractions/SemanticVersion.cs:280-284 | a pre-release version ranks below the release with the same numbers |
| ZeroBasedIndexConverter.CanConvert | src/OmniSharp.Abstractions/Models/ZeroBasedIndexConverter.cs:10 | true exactly for `int`, `int?`, `IEnumerable<int>` and `int[]` |
| ZeroBasedIndexConverter.RuntimeTypeIsConcrete | src/OmniSharp.Abstractions/Models/ZeroBasedIndexConverter.cs:39-61 | the run-time type of a non-null value is never `int?` or `IEnumerable<int>`, so those two branches of `WriteJson` never run |
| ZeroBasedIndexConverter.Written | src/OmniSharp.Abstractions/Models/ZeroBasedIndexConverter.cs:29-67 | null is written as null; in zero-based mode every value is written unchanged; in one-based mode a boxed int and each element of an `int[]` are written plus one (32-bit wrap-around), and any other enumerable unchanged |
| ZeroBasedIndexConverter.WriteJson | src/OmniSharp.Abstractions/Models/ZeroBasedIndexConverter.cs:27-68 | in one-based mode the caller's `int[]` itself is incremented element by element, in zero-based mode it is left alone; what is written is `Written` of the value and the array's old contents |
| ZeroBasedIndexConverter.ReadJson | src/OmniSharp.Abstractions/Models/ZeroBasedIndexConverter.cs:12-25 | whatever the mode: a null token gives a fresh object; for `IEnumerable<int>` every element comes back minus one; for `int`, `int?` (and `int[]`) the number comes back unchanged; a token of another shape throws |
| ZeroBasedIndexConverter.OneBasedIndexReadBackShifted | src/OmniSharp.Abstractions/Models/ZeroBasedIndexConverter.cs:23-66 | in one-based mode an index n is written as n + 1 and read back as n + 1 |
| ZeroBasedIndexConverter.ZeroBasedListReadBackShifted | src/OmniSharp.Abstractions/Models/ZeroBasedIndexConverter.cs:16-38 | in zero-based mode an index list is written unchanged and read back one lower |
| ZeroBasedIndexConverter.DecrementIncrement | src/OmniSharp.Abstractions/Models/ZeroBasedIndexConverter.cs:19-45 | for a 32-bit index, the unchecked increment followed by the unchecked decrement gives it back, wrap-around included |
| ZeroBasedIndexConverter.DecrementedIncremented | src/OmniSharp.Abstractions/Models/ZeroBasedIndexConverter.cs:19-45 | for 32-bit elements, the unchecked `+ 1` on every element followed by `- 1` gives the list back |
| ZeroBasedIndexConverter.IntendedRoundTrip | src/OmniSharp.Abstractions/Models/ZeroBasedIndexConverter.cs:12-68 | the corrected converter: every 32-bit index, and every list of them, reads back as written, in either mode |
| TextChange.Equals | src/OmniSharp.Abstractions/Models/V1/LinePositionSpanTextChange.cs:19-29 | `Equals(obj)` holds exactly when `obj` is a change equal to the receiver in its text and all four positions; null or another type is never equal |
| TextChange.EqualsIsValueEquality | src/OmniSharp.Abstractions/Models/V1/LinePositionSpanTextChange.cs:19-29 | `Equals` holds exactly when the other object is a change with the same text and the same four positions; it is reflexive and symmetric, and false for null or another type |
| TextChange.EqualsTransitive | src/OmniSharp.Abstractions/Models/V1/LinePositionSpanTextChange.cs:24-28 | `Equals` is transitive |
| TextChange.HashCode | src/OmniSharp.Abstractions/Models/V1/LinePositionSpanTextChange.cs:31-38 | a change with a null text hashes to 0 |
| TextChange.HashConsistentWithEquals | src/OmniSharp.Abstractions/Models/V1/LinePositionSpanTextChange.cs:31-38 | because `??` binds looser than `*`, the positions never reach the hash: equal changes, and changes with the same text, hash alike |
| TextChange.ReplaceChar | src/OmniSharp.Abstractions/Models/V1/LinePositionSpanTextChange.cs:43 | after an ordinal `Replace` of one character, that character occurs only if the replacement holds it |
| TextChange.ReplaceCharAppend | src/OmniSharp.Abstractions/Models/V1/LinePositionSpanTextChange.cs:43 | a one-character `Replace` distributes over concatenation |
| TextChange.Escape | src/OmniSharp.Abstractions/Models/V1/LinePositionSpanTextChange.cs:42-43 | escaping leaves no carriage return, line feed or tab, and never shortens the text |
| TextChange.DisplayTextEscapes | src/OmniSharp.Abstractions/Models/V1/LinePositionSpanTextChange.cs:42-44 | the three `Replace` calls in a row equal escaping every character on its own, since no escape holds a control character |
| TextChange.ToString | src/OmniSharp.Abstractions/Models/V1/LinePositionSpanTextChange.cs:40-46 | the rendering is always a single line, because CR, LF and TAB in the text are escaped; a null text is shown as `null` before the closing brace |
| SemanticHighlightSpan.CompareTo | src/OmniSharp.Abstractions/Models/V2/SemanticHighlight/SemanticHighlightSpan.cs:21-63 | the result is -1, 0 or 1, and 0 against null, because every lifted comparison with null is false |
| SemanticHighlightSpan.HashCode | src/OmniSharp.Abstractions/Models/V2/SemanticHighlight/SemanticHighlightSpan.cs:74-80 | `13·SL + 17·SC + 23·EL + 31·EC` in unchecked 32-bit arithmetic is a 32-bit value |
| SemanticHighlightSpan.LexLessOfFour | src/OmniSharp.Abstractions/Models/V2/SemanticHighlight/SemanticHighlightSpan.cs:21-63 | the lexicographic order on four positions, written out field by field |
| SemanticHighlightSpan.CompareToIsLexicographic | src/OmniSharp.Abstractions/Models/V2/SemanticHighlight/SemanticHighlightSpan.cs:21-63 | against a span, -1, 1 and 0 mean exactly below, above and equal in the lexicographic order of (StartLine, StartColumn, EndLine, EndColumn) |
| SemanticHighlightSpan.EqualsIffSamePositions | src/OmniSharp.Abstractions/Models/V2/SemanticHighlight/SemanticHighlightSpan.cs:65-72 | `Equals` holds iff the four positions agree (classification and modifiers are ignored), iff `CompareTo` is 0; it is false for null |
| SemanticHighlightSpan.Equals | src/OmniSharp.Abstractions/Models/V2/SemanticHighlight/SemanticHighlightSpan.cs:65-72 | `Equals(obj)` holds exactly when `obj` is a span with the same four positions, which is exactly when `CompareTo` gives 0; null is never equal |
| SemanticHighlightSpan.Eq | src/OmniSharp.Abstractions/Models/V2/SemanticHighlight/SemanticHighlightSpan.cs:82 | `==` holds for two nulls, or for two spans with the same four positions |
| SemanticHighlightSpan.Neq | src/OmniSharp.Abstractions/Models/V2/SemanticHighlight/SemanticHighlightSpan.cs:83 | `!=` is the negation of `==`: one null and one span, or two spans that differ in a position |
| SemanticHighlightSpan.Less | src/OmniSharp.Abstractions/Models/V2/SemanticHighlight/SemanticHighlightSpan.cs:84 | on two spans, `<` is the lexicographic order of (start line, start column, end line, end column); a null left is less exactly than a span; nothing is less than null |
| SemanticHighlightSpan.LessEq | src/OmniSharp.Abstractions/Models/V2/SemanticHighlight/SemanticHighlightSpan.cs:85 | on two spans, `<=` is lexicographically smaller or equal; it holds whenever either side is null |
| SemanticHighlightSpan.Greater | src/OmniSharp.Abstractions/Models/V2/SemanticHighlight/SemanticHighlightSpan.cs:86 | on two spans, `>` is lexicographically larger; it fails whenever either side is null |
| SemanticHighlightSpan.GreaterEq | src/OmniSharp.Abstractions/Models/V2/SemanticHighlight/SemanticHighlightSpan.cs:87 | on two spans, `>=` is lexicographically larger or equal; a null left is at least only null, and a span is at least null |
| SemanticHighlightSpan.CompareToAntisymmetric | src/OmniSharp.Abstractions/Models/V2/SemanticHighlight/SemanticHighlightSpan.cs:21-63 | between two spans, `x.CompareTo(y) == -y.CompareTo(x)` |
| SemanticHighlightSpan.LexLessTransitive | src/OmniSharp.Abstractions/Models/V2/SemanticHighlight/SemanticHighlightSpan.cs:21-63 | the lexicographic order is transitive |
| SemanticHighlightSpan.CompareToTransitive | src/OmniSharp.Abstractions/Models/V2/SemanticHighlight/SemanticHighlightSpan.cs:21-63 | `CompareTo` is transitive, strictly where either step is strict |
| SemanticHighlightSpan.HashConsistentWithEquals | src/OmniSharp.Abstractions/Models/V2/SemanticHighlight/SemanticHighlightSpan.cs:65-80 | equal spans hash alike |
| SemanticHighlightSpan.OperatorsOnSpans | src/OmniSharp.Abstractions/Models/V2/SemanticHighlight/SemanticHighlightSpan.cs:82-87 | between two spans the six operators are those of one total order: `==` is equal positions, `<` is lexicographic, `>` and `>=` are the converses of `<` and `<=` |
| SemanticHighlightSpan.NullLeftOperand | src/OmniSharp.Abstractions/Models/V2/SemanticHighlight/SemanticHighlightSpan.cs:82-87 | with null on the left: `==` and `>=` hold only against null, `<` only against a span, `<=` always and `>` never |
| SemanticHighlightSpan.NullRightOperand | src/OmniSharp.Abstractions/Models/V2/SemanticHighlight/SemanticHighlightSpan.cs:23-87 | `x.CompareTo(null)` is 0, so `x < null` and `x > null` are false while `x <= null` and `x >= null` are true, and `x == null` is false |
| SemanticHighlightSpan.NullOrderAsymmetric | src/OmniSharp.Abstractions/Models/V2/SemanticHighlight/SemanticHighlightSpan.cs:84-87 | with null the operators are not converses: `null < x` but not `x > null`, `x <= null` but not `null >= x` |
| SemanticHighlightSpan.IntendedCompareTo | src/OmniSharp.Abstractions/Models/V2/SemanticHighlight/SemanticHighlightSpan.cs:21-63 | the corrected comparison: every span follows null (result 1), and against a span it is `CompareTo` |
| SemanticHighlightSpan.IntendedOperatorsConsistent | src/OmniSharp.Abstractions/Models/V2/SemanticHighlight/SemanticHighlightSpan.cs:82-87 | with the corrected comparison `>` and `>=` are the converses of `<` and `<=`, `<=` is `<` or `==`, and any two operands are related, for every pair including null |
| Ranges.Contains | src/OmniSharp.Abstractions/Models/V2/Range.cs:5-23 | a null start throws `NullReferenceException`; a start line after `line` gives false before the end is read |
| Ranges.ContainsIsInclusiveInterval | src/OmniSharp.Abstractions/Models/V2/Range.cs:5-23 | with both points present, `Contains` holds iff Start ≤ (line, column) ≤ End in the lexicographic order, both ends included |
| Ranges.EndsContained | src/OmniSharp.Abstractions/Models/V2/Range.cs:5-23 | when Start ≤ End, both Start and End are contained |
| Ranges.OutsideLinesNotContained | src/OmniSharp.Abstractions/Models/V2/Range.cs:7-10 | no point on a line before the start line or after the end line is contained |
| Ranges.NullEndReadOnlyWhenNeeded | src/OmniSharp.Abstractions/Models/V2/Range.cs:7 | with a null end, `Contains` gives false when the start line excludes `line`, and throws otherwise |
| Ranges.ValidRangeMayBeEmpty | src/OmniSharp.Abstractions/Models/V2/Range.cs:25 | `IsValid` does not order the points: a valid range may start after its end, and then contains no point |
| Ranges.ValidRangeContainsDefined | src/OmniSharp.Abstractions/Models/V2/Range.cs:5-25 | on a valid range `Contains` never throws, and is the inclusive lexicographic interval |
| Ranges.IsValid | src/OmniSharp.Abstractions/Models/V2/Range.cs:25 | a valid range has both ends, so `Contains` never throws on it |
| CodeActions.RunWithSelection | src/OmniSharp.Abstractions/Models/V2/CodeActions/RunCodeActionRequest.cs:23-36 | the copy has the new selection, and the identifier, the three flags, and the six request properties of the receiver |
| CodeActions.GetWithSelection | src/OmniSharp.Abstractions/Models/V2/CodeActions/GetCodeActionsRequest.cs:17-26 | the copy has the new selection and the receiver's line, column, buffer, changes, ApplyChangesTogether and file name |
| CodeActions.WithSelection | src/OmniSharp.Abstractions/Models/V2/CodeActions/RunCodeActionRequest.cs:23 | the copy is of the receiver's own kind, with the new selection and the receiver's request properties; this holds for both request kinds, since `GetCodeActionsRequest.WithSelection` is written the same way |
| CodeActions.WithSelectionChangesOnlySelection | src/OmniSharp.Abstractions/Models/V2/CodeActions/RunCodeActionRequest.cs:23-36 | a copy differs from its receiver in the selection alone; the receiver, a value, is left as it was; this holds for both request kinds, since `GetCodeActionsRequest.WithSelection` is written the same way |
| CodeActions.WithOwnSelectionIsIdentity | src/OmniSharp.Abstractions/Models/V2/CodeActions/RunCodeActionRequest.cs:23-36 | `r.WithSelection(r.Selection)` equals `r`; this holds for both request kinds, since `GetCodeActionsRequest.WithSelection` is written the same way |
| CodeActions.LastSelectionWins | src/OmniSharp.Abstractions/Models/V2/CodeActions/RunCodeActionRequest.cs:23-36 | `r.WithSelection(a).WithSelection(b)` equals `r.WithSelection(b)`, so applying one selection twice is applying it once; this holds for both request kinds, since `GetCodeActionsRequest.WithSelection` is written the same way |
| CodeActions.SelectionDeterminesCopy | src/OmniSharp.Abstractions/Models/V2/CodeActions/RunCodeActionRequest.cs:23-36 | two requests that differ only in their selection become equal once given the same one; this holds for both request kinds, since `GetCodeActionsRequest.WithSelection` is written the same way |
| Responses.EmptyQuickFixResponse | src/OmniSharp.Abstractions/Models/V1/QuickFixResponse.cs:11 | a new response holds an empty list of fixes |
| Responses.Merge | src/OmniSharp.Abstractions/Models/V1/QuickFixResponse.cs:15-20 | a null argument throws `ArgumentNullException` (and so does a null list, through `Concat`); otherwise the result's fixes are the receiver's followed by the argument's, and its length the sum |
| Responses.EmptyIsIdentity | src/OmniSharp.Abstractions/Models/V1/QuickFixResponse.cs:11-20 | the new, empty response is a left and right identity of `Merge` |
| Responses.MergeAssociative | src/OmniSharp.Abstractions/Models/V1/QuickFixResponse.cs:15-20 | `Merge` is associative |
| Responses.MergeCommutesUpToOrder | src/OmniSharp.Abstractions/Models/V1/QuickFixResponse.cs:19 | merging in either order gives the same multiset of fixes |
| Responses.MergeAll | src/OmniSharp.Abstractions/Models/V1/QuickFixResponse.cs:15-20 | folding `Merge` over a list of responses never throws and concatenates their fixes in order |
| Responses.MergedCount | src/OmniSharp.Abstractions/Models/V1/QuickFixResponse.cs:19 | the merged count is the sum of the counts, and every response's fixes are in the merged list as often as there |
| Responses.MergedFixesOfAppend | src/OmniSharp.Abstractions/Models/V1/QuickFixResponse.cs:19 | merging two groups of responses one after the other concatenates their merged fixes |
| Responses.MergedGroupsCommute | src/OmniSharp.Abstractions/Models/V1/QuickFixResponse.cs:19 | merging two groups of responses in either order gives the same multiset of fixes |
| Responses.EmptyRunFixAllResponse | src/OmniSharp.Abstractions/Models/V1/FixAll/RunFixAllResponse.cs:7 | a new response has no changes |
| Responses.MergeFixAll | src/OmniSharp.Abstractions/Models/V1/FixAll/RunFixAllResponse.cs:11 | `Merge` returns its argument, null included; the receiver's changes are dropped |
| Responses.FoldFixAllIsLast | src/OmniSharp.Abstractions/Models/V1/FixAll/RunFixAllResponse.cs:11 | folding `Merge` over a non-empty list yields its last element |
| Responses.MergeFixAllAssociative | src/OmniSharp.Abstractions/Models/V1/FixAll/RunFixAllResponse.cs:11 | `Merge` is associative |
| SdkInstanceProvider.TryParseVersion | src/OmniSharp.Host/MSBuild/Discovery/Providers/SdkInstanceProvider.cs:58-96 | throws where `TryParse` throws; accepted iff `TryParse` yields a version with Major ≥ 6, and then with that version; an unparsable string is refused with the "not a valid semantic version" message, a parsed version below 6 with the ".NET 6 or higher" message and the parsed version |
| SdkInstanceProvider.IsModernDotNet | src/OmniSharp.Host/MSBuild/Discovery/Providers/SdkInstanceProvider.cs:96 | a version is modern exactly when it is at least 6.0.0 in version order, or is a 6.0.0 pre-release |
| SdkInstanceProvider.JudgeVersion | src/OmniSharp.Host/MSBuild/Discovery/Providers/SdkInstanceProvider.cs:60-65 | the `switch` over the outcome of `TryParse`, with the cases above |
| SdkInstanceProvider.RenderedModernVersionAccepted | src/OmniSharp.Host/MSBuild/Discovery/Providers/SdkInstanceProvider.cs:58-67 | the rendering of a canonical .NET 6+ version is accepted with that version |
| SdkInstanceProvider.RenderedOldVersionRefused | src/OmniSharp.Host/MSBuild/Discovery/Providers/SdkInstanceProvider.cs:58-67 | the rendering of a canonical version before .NET 6 is refused with the ".NET 6 or higher" message |
| SdkInstanceProvider.FirstParsedLine | src/OmniSharp.Host/MSBuild/Discovery/Providers/SdkInstanceProvider.cs:86-93 | the outcome of the `foreach`: false iff no line parses (and none throws); otherwise the outcome of the first line that parses or throws, every line before it refused |
| SdkInstanceProvider.TryGetSdkVersion | src/OmniSharp.Host/MSBuild/Discovery/Providers/SdkInstanceProvider.cs:77-94 | false when the SDK has no `.version` file; otherwise the first line `TryParse` accepts, or false when none does |
| SdkInstanceProvider.SdkVersionIsALine | src/OmniSharp.Host/MSBuild/Discovery/Providers/SdkInstanceProvider.cs:85-92 | on the lines of a file, the version found is the rendering of one of the lines, and canonical |
| SdkInstanceProvider.IncludeSdkInstance | src/OmniSharp.Host/MSBuild/Discovery/Providers/SdkInstanceProvider.cs:69-75 | true iff the SDK's `.version` file yields a version of .NET 6 or later that equals the target when one is given, and otherwise is admitted by `includePrerelease` or has no pre-release label; no `.version` file gives false |
| SdkInstanceProvider.IncludedLocations | src/OmniSharp.Host/MSBuild/Discovery/Providers/SdkInstanceProvider.cs:29-30 | a location is in the `Where` clause's result exactly when it was queried and `IncludeSdkInstance` admits it; order and multiplicity are stated by `IncludedLocationsFilter` |
| SdkInstanceProvider.IncludedLocationsFilter | src/OmniSharp.Host/MSBuild/Discovery/Providers/SdkInstanceProvider.cs:29-30 | the `Where` clause keeps the admitted locations in their order, each as often as it was queried, and drops the rest |
| SdkInstanceProvider.IncludedLocationsThrows | src/OmniSharp.Host/MSBuild/Discovery/Providers/SdkInstanceProvider.cs:29-30 | when the `Where` clause throws, it is with the exception of the first location whose check throws, every earlier check having answered |
| SdkInstanceProvider.IncludedLocationsThrowsIfAny | src/OmniSharp.Host/MSBuild/Discovery/Providers/SdkInstanceProvider.cs:29-30 | a location whose check throws makes the whole `Where` clause throw |
| SdkInstanceProvider.AtLeastTransitive | src/OmniSharp.Host/MSBuild/Discovery/Providers/SdkInstanceProvider.cs:31 | `>=` on `System.Version` is transitive |
| SdkInstanceProvider.InsertDescending | src/OmniSharp.Host/MSBuild/Discovery/Providers/SdkInstanceProvider.cs:31 | inserting into a newest-first sequence keeps it newest first and adds exactly that location |
| SdkInstanceProvider.OrderByVersionDescending | src/OmniSharp.Host/MSBuild/Discovery/Providers/SdkInstanceProvider.cs:31 | `OrderByDescending(instance => instance.Version)` gives a newest-first permutation of its input |
| SdkInstanceProvider.GetInstances | src/OmniSharp.Host/MSBuild/Discovery/Providers/SdkInstanceProvider.cs:18-42 | no instances when a configured version is refused by `TryParseVersion`; otherwise the included locations, as a multiset, sorted newest first |
| SdkInstanceProvider.GetInstancesFilter | src/OmniSharp.Host/MSBuild/Discovery/Providers/SdkInstanceProvider.cs:18-42 | with an accepted configuration, each admitted location appears as often as it was queried and no other appears; `GetInstances` throws exactly when the `Where` clause does |
| DotNetCliService.FirstLocationWithExecutable | src/OmniSharp.Host/Services/DotNetCliService.cs:38-50 | none iff no configured location holds the executable; otherwise the first location that does, every earlier one lacking it |
| DotNetCliService.ChosenDotNetPath | src/OmniSharp.Host/Services/DotNetCliService.cs:38-66 | `Combine(p, "dotnet")` for the first location p holding the executable; failing that `Combine(DOTNET_ROOT, "dotnet")` when DOTNET_ROOT is non-empty and holds it; otherwise "dotnet" |
| DotNetCliService.EarlierLocationWins | src/OmniSharp.Host/Services/DotNetCliService.cs:40-44 | a location holding the executable wins over everything configured after it, DOTNET_ROOT included |
| DotNetCliService.DotNetCli.constructor | src/OmniSharp.Host/Services/DotNetCliService.cs:29-69 | `DotNetPath` is the path `ChosenDotNetPath` settles on |
| DotNetCliService.EnvironmentVariables.Remove | src/OmniSharp.Host/Services/DotNetCliService.cs:75-76 | `IDictionary.Remove` drops the key and nothing else |
| DotNetCliService.WithoutMSBuildVariables | src/OmniSharp.Host/Services/DotNetCliService.cs:71-77 | exactly `MSBUILD_EXE_PATH` and `MSBuildExtensionsPath` are gone; every other entry is unchanged |
| DotNetCliService.RemoveMSBuildEnvironmentVariables | src/OmniSharp.Host/Services/DotNetCliService.cs:71-77 | the dictionary is changed in place to `WithoutMSBuildVariables` of its old entries |
| DotNetCliService.NonNullEntries | src/OmniSharp.Host/Services/DotNetCliService.cs:118 | the copy holds exactly the entries whose value is not null, with their values |
| DotNetCliService.StartEnvironment | src/OmniSharp.Host/Services/DotNetCliService.cs:108-121 | as written, the child is launched with `startInfo.Environment` unchanged: the MSBuild variables are removed from a copy that is then dropped |
| DotNetCliService.IntendedStartEnvironment | src/OmniSharp.Host/Services/DotNetCliService.cs:108-121 | the corrected environment holds no MSBuild variable and every other entry of `startInfo.Environment` unchanged |
| DotNetCliService.IsLegacyAsWritten | src/OmniSharp.Host/Services/DotNetCliService.cs:216-221 | the test begins with `!HasError`, so every version read without error is legacy; with an error, a null version throws and otherwise the result is "Major < 1, exactly 1.0.0, or a preview1/preview2 pre-release" |
| DotNetCliService.IsLegacy | src/OmniSharp.Host/Services/DotNetCliService.cs:206-221 | the intended test: legacy implies the code as written reports legacy, and for a CLI without an error it is what the code reports once the inverted error check is taken into account |
| DotNetCliService.ModernCliReportedLegacy | src/OmniSharp.Host/Services/DotNetCliService.cs:216 | the .NET 6 CLI, read without error, is reported legacy, although the documented test calls it modern |
| DotNetCliService.LegacyOnlyForOldReleases | src/OmniSharp.Host/Services/DotNetCliService.cs:206-221 | the corrected test refuses every failed read, passes every release from 2.0.0 on and flags every beta 0.x |
| OmniSharpEnvironment.SharedDirectory | src/OmniSharp.Host/Services/OmniSharpEnvironment.cs:49-57 | the first of OMNISHARPHOME, USERPROFILE and HOME that is set, joined with ".omnisharp"; null iff none is set |
| OmniSharpEnvironment.Target | src/OmniSharp.Host/Services/OmniSharpEnvironment.cs:23-40 | a null or empty path gives the current directory and no solution; an existing directory is the target; a solution file is an existing `.sln`/`.slnf` (ignoring case) whose directory becomes the target; the constructor throws exactly when none of these applies (a solution file without a directory name included) |
| OmniSharpEnvironment.Create | src/OmniSharp.Host/Services/OmniSharpEnvironment.cs:17-58 | throws `ArgumentException` exactly when `Target` finds nothing; otherwise stores the target, the shared directory, and the pid, log level and arguments verbatim |
| OmniSharpEnvironment.SolutionFileNameAlone | src/OmniSharp.Host/Services/OmniSharpEnvironment.cs:31-35 | a bare solution file name in the current directory is accepted, with the empty directory name as target |
| LocationPaths.Normalize | src/OmniSharp.Shared/Options/RoslynExtensionsOptions.cs:33-40 | a rooted location is kept verbatim; a relative one becomes `Combine(TargetDirectory, p)` |
| LocationPaths.AddIgnoringCase | src/OmniSharp.Shared/Options/RoslynExtensionsOptions.cs:30-39 | `HashSet.Add` under `OrdinalIgnoreCase`: a new element goes at the end, one equal ignoring case is ignored, and no two elements are equal ignoring case |
| LocationPaths.NormalizedPaths | src/OmniSharp.Shared/Options/RoslynExtensionsOptions.cs:30-42 | no two results are equal ignoring case, and there are no more results than locations |
| LocationPaths.NormalizedPathsCover | src/OmniSharp.Shared/Options/RoslynExtensionsOptions.cs:30-42 | every configured location is represented, up to case, by its normalised form |
| LocationPaths.NormalizedPathsFrom | src/OmniSharp.Shared/Options/RoslynExtensionsOptions.cs:30-42 | every result is the normalised form of some configured location |
| LocationPaths.GetNormalizedLocationPaths | src/OmniSharp.Shared/Options/RoslynExtensionsOptions.cs:23-43 | a null environment throws `ArgumentNullException`; null or empty locations give none; otherwise the loop yields `NormalizedPaths` |
| EndpointMiddleware.PredicateFor | src/OmniSharp.Http/Middleware/EndpointMiddleware.cs:54-61 | `/project` and `/projects` get the static "Projects" predicate, the three package endpoints the static "NuGet" one, every other endpoint the language predicate |
| EndpointMiddleware.CreateHandler | src/OmniSharp.Http/Middleware/EndpointMiddleware.cs:52-73 | a handler gets the endpoint's predicate, and the shared update-buffer handler unless it is `/updatebuffer` itself |
| EndpointMiddleware.AddKeys | src/OmniSharp.Http/Middleware/EndpointMiddleware.cs:50-75 | building the table throws only `ArgumentException`, and the keys it holds are distinct ignoring case |
| EndpointMiddleware.AddKeysSucceeds | src/OmniSharp.Http/Middleware/EndpointMiddleware.cs:50-75 | the table is built iff no two endpoint names are equal ignoring case, and then holds every name |
| EndpointMiddleware.FindKey | src/OmniSharp.Http/Middleware/EndpointMiddleware.cs:86-88 | a path finds a key iff some name equals it ignoring case, and the key found is such a name |
| EndpointMiddleware.KeyIsUnique | src/OmniSharp.Http/Middleware/EndpointMiddleware.cs:75-88 | in a table without case-insensitive duplicates a path matches one key at most |
| EndpointMiddleware.UpdateBufferTarget | src/OmniSharp.Http/Middleware/EndpointMiddleware.cs:46 | the shared update-buffer handler resolves iff an `/updatebuffer` endpoint exists, and throws `KeyNotFoundException` otherwise |
| EndpointMiddleware.UpdateBufferNeverCallsItself | src/OmniSharp.Http/Middleware/EndpointMiddleware.cs:46-71 | the shared update-buffer handler is the `/updatebuffer` endpoint's, which has no update-buffer handler, so it never calls itself |
| EndpointMiddleware.Middleware.FromTable | src/OmniSharp.Http/Middleware/EndpointMiddleware.cs:39-78 | the table holds the given names and no handler has been built |
| EndpointMiddleware.Middleware.HandlerValue | src/OmniSharp.Http/Middleware/EndpointMiddleware.cs:52-90 | `Lazy.Value`: the endpoint's handler is created on first use only and cached afterwards |
| EndpointMiddleware.Middleware.Invoke | src/OmniSharp.Http/Middleware/EndpointMiddleware.cs:81-103 | a non-empty path that is a known endpoint, ignoring case, is dispatched to its entry's handler with the path as command (building it if needed) and `next` is not called; any other path goes to `next` and builds nothing |
| EndpointMiddleware.Create | src/OmniSharp.Http/Middleware/EndpointMiddleware.cs:28-79 | the constructor throws `ArgumentException` iff two endpoint names are equal ignoring case; otherwise a fresh middleware with every name and no handler built |
| CakeRequestHandler.EndpointNameOutcome | src/OmniSharp.Cake/Services/RequestHandlers/CakeRequestHandler.cs:18-29 | a cached non-empty name is returned; otherwise the attribute's name, or `InvalidOperationException` when the attribute is missing |
| CakeRequestHandler.FirstCSharpHandler | src/OmniSharp.Cake/Services/RequestHandlers/CakeRequestHandler.cs:41-43 | none iff no export has the endpoint name (ordinally) and the language "C#"; otherwise the first such export |
| CakeRequestHandler.ResolveService | src/OmniSharp.Cake/Services/RequestHandlers/CakeRequestHandler.cs:39-45 | the `Service` factory: the endpoint name's exception, or `InvalidOperationException` when `Handlers` is null, no export matches or its value is null; otherwise the first matching export's value |
| CakeRequestHandler.DefaultHooks | src/OmniSharp.Cake/Services/RequestHandlers/CakeRequestHandler.cs:64-78 | the base hooks: every request is valid; a `Request` is translated in place, giving the same object or the exception `TranslateAsync` threw, any other request passes unchanged; the response passes unchanged |
| CakeRequestHandler.Pipeline | src/OmniSharp.Cake/Services/RequestHandlers/CakeRequestHandler.cs:48-62 | `Handle` after the service: a service failure ends the run at once; an exception from translating the request ends it before validation; an invalid translated request throws `InvalidOperationException` before delegating; otherwise the C# handler's exception, or the outcome of translating its response back, exception included |
| CakeRequestHandler.PipelineOrder | src/OmniSharp.Cake/Services/RequestHandlers/CakeRequestHandler.cs:48-62 | every run takes a prefix of resolve, translate, validate, delegate, translate back; it delegates iff the service resolved, the request translated and the translated request is valid; a successful run takes every step |
| CakeRequestHandler.DefaultHooksPassResponse | src/OmniSharp.Cake/Services/RequestHandlers/CakeRequestHandler.cs:48-78 | with the base hooks the outcome is the C# handler's, answer or exception, on the translated request, or the exception of translating it in place |
| CakeRequestHandler.CakeHandler.constructor | src/OmniSharp.Cake/Services/RequestHandlers/CakeRequestHandler.cs:36-46 | no endpoint name is cached and the service has not been built |
| CakeRequestHandler.CakeHandler.EndpointName | src/OmniSharp.Cake/Services/RequestHandlers/CakeRequestHandler.cs:18-29 | the name read from the attribute is cached after the first successful read |
| CakeRequestHandler.CakeHandler.ServiceValue | src/OmniSharp.Cake/Services/RequestHandlers/CakeRequestHandler.cs:34-45 | `Service.Value`: the factory runs on first use only, and its value or exception is kept for later uses; `EndpointName` is read only when there is an export to test, so with null or no `Handlers` the cache is left as it was |
| CakeRequestHandler.CakeHandler.Handle | src/OmniSharp.Cake/Services/RequestHandlers/CakeRequestHandler.cs:48-62 | resolves the service (once), then runs `Pipeline` with the handler's hooks |
| InformationServices.AddEachPrefixThrows | src/OmniSharp.Roslyn/ProjectInformationService.cs:28-33 | once the first systems have thrown, the later ones change nothing: the response is that first exception |
| InformationServices.AddEachHolds | src/OmniSharp.Roslyn/ProjectInformationService.cs:32 | a built dictionary holds exactly the keys that were added, each with the value added under it; the workspace-information service adds its entries by the same `Dictionary.Add` |
| InformationServices.AddEachSucceedsIff | src/OmniSharp.Roslyn/ProjectInformationService.cs:28-33 | the dictionary is built exactly when no model call throws and no key is added twice |
| InformationServices.AddEachExceptions | src/OmniSharp.Roslyn/ProjectInformationService.cs:30-32 | an exception is either the `ArgumentException` of a repeated key or one that a model call threw |
| InformationServices.AddEachFirstThrow | src/OmniSharp.Roslyn/ProjectInformationService.cs:30 | when everything before it succeeded, the first model call that throws decides the outcome |
| InformationServices.ProjectInformation | src/OmniSharp.Roslyn/ProjectInformationService.cs:24-25 | a null request throws `ArgumentNullException` |
| InformationServices.HandleProjectInformation | src/OmniSharp.Roslyn/ProjectInformationService.cs:22-35 | the `foreach` asks the initialized systems in order, passes on an exception from a model call, skips a null model and adds `Key + "Project"`: the result is `ProjectInformation` |
| InformationServices.ProjectThrowPersists | src/OmniSharp.Roslyn/ProjectInformationService.cs:28-33 | if the first systems throw, the whole request throws the same exception |
| InformationServices.ProjectModelThrowPropagates | src/OmniSharp.Roslyn/ProjectInformationService.cs:30 | the first initialized system whose `GetProjectModelAsync` throws makes `Handle` throw that same exception |
| InformationServices.ProjectInformationExceptions | src/OmniSharp.Roslyn/ProjectInformationService.cs:24-32 | `/project` throws only one of three: `ArgumentNullException` for a null request, `ArgumentException` for a repeated key, or an initialized system's own exception |
| InformationServices.ProjectInformationSucceedsIff | src/OmniSharp.Roslyn/ProjectInformationService.cs:28-33 | a non-null request gets its response exactly when no initialized system throws and no two systems with a model share a key |
| InformationServices.ProjectInformationEntries | src/OmniSharp.Roslyn/ProjectInformationService.cs:28-33 | every initialized system with a non-null model, and no other, has an entry `Key + "Project"` holding its model |
| InformationServices.HandleWorkspaceInformation | src/OmniSharp.Roslyn/WorkspaceInformationService.cs:20-29 | the `foreach` asks each initialized system in order, passes on an exception from a model call and adds `Key → model`: the result is `WorkspaceInformation` |
| InformationServices.WorkspaceThrowPersists | src/OmniSharp.Roslyn/WorkspaceInformationService.cs:23-27 | if the first systems throw, the whole request throws the same exception |
| InformationServices.WorkspaceModelThrowPropagates | src/OmniSharp.Roslyn/WorkspaceInformationService.cs:25 | the first initialized system whose `GetWorkspaceModelAsync` throws makes `Handle` throw that same exception |
| InformationServices.WorkspaceInformationExceptions | src/OmniSharp.Roslyn/WorkspaceInformationService.cs:25-26 | `/projects` throws only `ArgumentException` for a repeated key, or an initialized system's own exception |
| InformationServices.WorkspaceInformationSucceedsIff | src/OmniSharp.Roslyn/WorkspaceInformationService.cs:23-27 | the response is built exactly when no initialized system throws and no two initialized systems share a key |
| InformationServices.WorkspaceInformationEntries | src/OmniSharp.Roslyn/WorkspaceInformationService.cs:23-27 | every initialized system answered; the keys are exactly the initialized systems' keys, each with its model, null models included; uninitialized systems are absent |
| InformationServices.DuplicateKeyThrows | src/OmniSharp.Roslyn/WorkspaceInformationService.cs:25-26 | two initialized systems with one key: `/projects` throws the first system's exception, else the second's, else `ArgumentException` |
| DiagnosticWorkerComposer.Worker.constructor | src/OmniSharp.Roslyn.CSharp/Workers/Diagnostics/CsharpDiagnosticWorkerComposer.cs:53-61 | a new worker has its class and disposability, is not disposed and has received nothing |
| DiagnosticWorkerComposer.Wanted | src/OmniSharp.Roslyn.CSharp/Workers/Diagnostics/CsharpDiagnosticWorkerComposer.cs:51-59 | the analyzer worker is wanted exactly when analyzer support is enabled |
| DiagnosticWorkerComposer.Decide | src/OmniSharp.Roslyn.CSharp/Workers/Diagnostics/CsharpDiagnosticWorkerComposer.cs:48-71 | the worker is replaced exactly when there is none or it is of the other kind; documents are queued exactly when an analyzer worker is replaced by a plain one |
| DiagnosticWorkerComposer.UpdateFollowsOption | src/OmniSharp.Roslyn.CSharp/Workers/Diagnostics/CsharpDiagnosticWorkerComposer.cs:48-76 | after any update the worker is of the wanted kind, and the throw for a null worker is unreachable |
| DiagnosticWorkerComposer.UpdateIsIdempotent | src/OmniSharp.Roslyn.CSharp/Workers/Diagnostics/CsharpDiagnosticWorkerComposer.cs:51-59 | a second update with the same option neither replaces the worker nor queues documents |
| DiagnosticWorkerComposer.QueueOnlyWhenSwitchingToPlain | src/OmniSharp.Roslyn.CSharp/Workers/Diagnostics/CsharpDiagnosticWorkerComposer.cs:59-70 | the first run replaces without queueing, a switch to analyzers never queues, and queueing only comes with a replacement |
| DiagnosticWorkerComposer.Composer.constructor | src/OmniSharp.Roslyn.CSharp/Workers/Diagnostics/CsharpDiagnosticWorkerComposer.cs:37-45 | the composer subscribes to option changes and holds a fresh worker of the wanted kind that has received nothing |
| DiagnosticWorkerComposer.Composer.UpdateImplementation | src/OmniSharp.Roslyn.CSharp/Workers/Diagnostics/CsharpDiagnosticWorkerComposer.cs:48-76 | the worker ends of the wanted kind; a replacement is fresh and is queued all documents only when switching to plain; the replaced worker is disposed iff it is disposable; otherwise nothing changes |
| DiagnosticWorkerComposer.Composer.Forward | src/OmniSharp.Roslyn.CSharp/Workers/Diagnostics/CsharpDiagnosticWorkerComposer.cs:78-95 | each query reaches the current worker, appended to what it received, and nothing else changes |
| DiagnosticWorkerComposer.Composer.Dispose | src/OmniSharp.Roslyn.CSharp/Workers/Diagnostics/CsharpDiagnosticWorkerComposer.cs:86-91 | the current worker is disposed iff it is disposable, and the subscription is disposed |
| DiagnosticWorkerComposer.NewComposer | src/OmniSharp.Roslyn.CSharp/Workers/Diagnostics/CsharpDiagnosticWorkerComposer.cs:37-45 | null options throw `ArgumentNullException`; otherwise a composer with a worker of the wanted kind is built |
| MSBuildLocator.ExePathCandidate | src/OmniSharp.Host/MSBuild/Discovery/MSBuildLocator.cs:73-81 | the `.exe` path when that file exists, else the `.dll` path when that exists, and none exactly when neither exists |
| MSBuildLocator.CandidateIsNonEmpty | src/OmniSharp.Host/MSBuild/Discovery/MSBuildLocator.cs:83-91 | a found path is never empty, so the variable is set whenever a file was found |
| MSBuildLocator.RegisterOutcome | src/OmniSharp.Host/MSBuild/Discovery/MSBuildLocator.cs:66-71 | an existing registration throws `InvalidOperationException`, else a null instance throws `ArgumentNullException`; the call completes exactly when neither holds |
| MSBuildLocator.RegisterOnce | src/OmniSharp.Host/MSBuild/Discovery/MSBuildLocator.cs:66-71 | once an instance is registered every further registration fails; with none, registration completes iff the instance is non-null |
| MSBuildLocator.NonNull | src/OmniSharp.Host/MSBuild/Discovery/MSBuildLocator.cs:118-124 | the non-null instances of a provider are exactly those it found, never more than it returned |
| MSBuildLocator.NonNullKeepsOrder | src/OmniSharp.Host/MSBuild/Discovery/MSBuildLocator.cs:118-124 | the non-null instances are kept in the order the provider returned them |
| MSBuildLocator.NonNullCounts | src/OmniSharp.Host/MSBuild/Discovery/MSBuildLocator.cs:118-124 | each non-null instance is kept as often as the provider returned it; only the nulls are dropped |
| MSBuildLocator.AllInstancesFound | src/OmniSharp.Host/MSBuild/Discovery/MSBuildLocator.cs:112-130 | an instance is listed exactly when some provider returned it |
| MSBuildLocator.AllInstancesOfAppend | src/OmniSharp.Host/MSBuild/Discovery/MSBuildLocator.cs:116-125 | the providers' instances are listed in provider order |
| MSBuildLocator.Locator.constructor | src/OmniSharp.Host/MSBuild/Discovery/MSBuildLocator.cs:22-26 | a new locator has nothing registered, no variable set and no path handed over |
| MSBuildLocator.Locator.RegisterInstance | src/OmniSharp.Host/MSBuild/Discovery/MSBuildLocator.cs:64-110 | the outcome follows the register-once rule; a failed call changes nothing; a successful one records the instance, sets `MSBUILD_EXE_PATH` to the found candidate when asked, and registers the path when `CanRegister` |
| MSBuildLocator.Locator.DisposeCore | src/OmniSharp.Host/MSBuild/Discovery/MSBuildLocator.cs:28-34 | the registration is dropped, so a later registration completes exactly for a non-null instance; nothing else changes |
| MSBuildLocator.Locator.GetInstances | src/OmniSharp.Host/MSBuild/Discovery/MSBuildLocator.cs:112-130 | the result is every provider's non-null instances, provider after provider |
| CodeStructure.DictionaryAdd | src/OmniSharp.Abstractions/Models/V2/CodeStructure/CodeElement.Builder.cs:15-16 | `Add` succeeds exactly when the key is new or already holds an equal value, else throws `ArgumentException`; on success the key maps to the value, the keys grow by that key and other entries are kept |
| CodeStructure.DictionaryAddIdempotent | src/OmniSharp.Abstractions/Models/V2/CodeStructure/CodeElement.Builder.cs:15-16 | adding the same entry twice is the same as adding it once |
| CodeStructure.DictionaryAddRejectsConflict | src/OmniSharp.Abstractions/Models/V2/CodeStructure/CodeElement.Builder.cs:15-16 | a second value for a key just added throws `ArgumentException` |
| CodeStructure.DictionaryAddsCommute | src/OmniSharp.Abstractions/Models/V2/CodeStructure/CodeElement.Builder.cs:15-16 | entries for distinct keys may be added in either order with the same result |
| CodeStructure.Builder.constructor | src/OmniSharp.Abstractions/Models/V2/CodeStructure/CodeElement.Builder.cs:8-12 | a new builder holds its kind and names and has no children, ranges or properties |
| CodeStructure.Builder.AddChild | src/OmniSharp.Abstractions/Models/V2/CodeStructure/CodeElement.Builder.cs:14 | the child is appended after the earlier ones; ranges and properties are unchanged |
| CodeStructure.Builder.AddRange | src/OmniSharp.Abstractions/Models/V2/CodeStructure/CodeElement.Builder.cs:15 | the range is added as `Add` does, the builder is left as it was when `Add` throws, and nothing else changes |
| CodeStructure.Builder.AddProperty | src/OmniSharp.Abstractions/Models/V2/CodeStructure/CodeElement.Builder.cs:16 | the property is added as `Add` does, the builder is left as it was when `Add` throws, and nothing else changes |
| CodeStructure.Builder.ToCodeElement | src/OmniSharp.Abstractions/Models/V2/CodeStructure/CodeElement.Builder.cs:18-27 | the element holds the builder's kind, names, children, ranges and properties as they are now |
| CodeStructure.SnapshotsAreIndependent | src/OmniSharp.Abstractions/Models/V2/CodeStructure/CodeElement.Builder.cs:18-27 | an element taken from a builder keeps its contents when the builder is given more, and a later element shows the additions |
| ProjectBlock.MaxEnd | src/OmniSharp.MSBuild/SolutionParsing/ProjectBlock.cs:22-28 | a `.*` starting at a position can reach up to the first line feed or the end, and no further |
| ProjectBlock.SkipWhiteSpace | src/OmniSharp.MSBuild/SolutionParsing/ProjectBlock.cs:23-27 | `\s*` covers exactly the white space up to the next other character |
| ProjectBlock.Glue | src/OmniSharp.MSBuild/SolutionParsing/ProjectBlock.cs:22-28 | the glue between two groups ends just after the next group's opening quote |
| ProjectBlock.Next | src/OmniSharp.MSBuild/SolutionParsing/ProjectBlock.cs:22-28 | what follows a group takes it strictly forward |
| ProjectBlock.Search | src/OmniSharp.MSBuild/SolutionParsing/ProjectBlock.cs:19-30 | the backtracking search for a group succeeds with at least one group placed |
| ProjectBlock.SearchSound | src/OmniSharp.MSBuild/SolutionParsing/ProjectBlock.cs:19-30 | whatever the backtracking search finds is a valid placement of the remaining groups |
| ProjectBlock.SearchRestSound | src/OmniSharp.MSBuild/SolutionParsing/ProjectBlock.cs:19-30 | whatever the search after a group finds is a valid placement of the following groups |
| ProjectBlock.SearchComplete | src/OmniSharp.MSBuild/SolutionParsing/ProjectBlock.cs:19-30 | when any placement of the remaining groups exists, the search finds one |
| ProjectBlock.SearchRestComplete | src/OmniSharp.MSBuild/SolutionParsing/ProjectBlock.cs:19-30 | when any placement of the following groups exists, the search after a group finds one |
| ProjectBlock.SearchGreedy | src/OmniSharp.MSBuild/SolutionParsing/ProjectBlock.cs:22-28 | each `.*` group takes the longest run any match allows, as a backtracking engine does |
| ProjectBlock.MatchesShape | src/OmniSharp.MSBuild/SolutionParsing/ProjectBlock.cs:19-30 | a placement has one span per remaining group, each within the line |
| ProjectBlock.MatchHeaderIffHeader | src/OmniSharp.MSBuild/SolutionParsing/ProjectBlock.cs:54-58 | the header pattern matches exactly the lines of header form, and the groups it yields are a placement |
| ProjectBlock.ParseHeader | src/OmniSharp.MSBuild/SolutionParsing/ProjectBlock.cs:54-74 | a rejected header throws only `InvalidSolutionFileException` |
| ProjectBlock.HeaderOf | src/OmniSharp.MSBuild/SolutionParsing/ProjectBlock.cs:60-74 | building the fields from the groups throws only `InvalidSolutionFileException` |
| ProjectBlock.ParseHeaderNullIffNotHeader | src/OmniSharp.MSBuild/SolutionParsing/ProjectBlock.cs:54-58 | the result is null exactly for a line that is not a project header |
| ProjectBlock.TrimmedHasNoOuterWhiteSpace | src/OmniSharp.MSBuild/SolutionParsing/ProjectBlock.cs:60-63 | a trimmed group has no white space at either end |
| ProjectBlock.HeaderOfRejects | src/OmniSharp.MSBuild/SolutionParsing/ProjectBlock.cs:71-74 | the header is rejected exactly when the trimmed path holds an invalid path character |
| ProjectBlock.HeaderOfName | src/OmniSharp.MSBuild/SolutionParsing/ProjectBlock.cs:61-69 | the name is never empty: the trimmed group, or `EmptyProjectName.` and a fresh guid when that is empty |
| ProjectBlock.HeaderOfTrimmed | src/OmniSharp.MSBuild/SolutionParsing/ProjectBlock.cs:60-74 | the type guid, path and project guid are trimmed, and an accepted path has no invalid character |
| ProjectBlock.ParseHeaderOfHeader | src/OmniSharp.MSBuild/SolutionParsing/ProjectBlock.cs:54-74 | a header line yields the fields built from the groups the match places, or that build's exception |
| ProjectBlock.Consumed | src/OmniSharp.MSBuild/SolutionParsing/ProjectBlock.cs:92 | the section parser never reads past the last line |
| ProjectBlock.ReadSections | src/OmniSharp.MSBuild/SolutionParsing/ProjectBlock.cs:84-98 | reading ends at the end of the lines or just after an `EndProject` line |
| ProjectBlock.StopsAtFirstEndProject | src/OmniSharp.MSBuild/SolutionParsing/ProjectBlock.cs:84-89 | with no `ProjectSection(` line before it, reading stops just after the first `EndProject` with no sections |
| ProjectBlock.ReadsToEndWithoutEndProject | src/OmniSharp.MSBuild/SolutionParsing/ProjectBlock.cs:84-98 | without an `EndProject` line every line is read |
| ProjectBlock.SectionsFromSectionLines | src/OmniSharp.MSBuild/SolutionParsing/ProjectBlock.cs:90-96 | every section comes from a `ProjectSection(` line that was read and that its parser did not reject |
| ProjectBlock.AtMostOneSectionPerLine | src/OmniSharp.MSBuild/SolutionParsing/ProjectBlock.cs:90-96 | there are no more sections than lines read |
| ProjectBlock.Scanner.constructor | src/OmniSharp.MSBuild/SolutionParsing/ProjectBlock.cs:84 | a scanner holds its lines and position |
| ProjectBlock.Scanner.NextLine | src/OmniSharp.MSBuild/SolutionParsing/ProjectBlock.cs:84 | the next line and one step forward, or null at the end with the position unchanged |
| ProjectBlock.Scanner.Skip | src/OmniSharp.MSBuild/SolutionParsing/ProjectBlock.cs:92 | the section parser's lines are skipped, as far as there are any |
| ProjectBlock.ReadLine | src/OmniSharp.MSBuild/SolutionParsing/ProjectBlock.cs:84-97 | one turn of the loop: stop at the end or after `EndProject`; otherwise the line's section and the lines its parser read |
| ProjectBlock.ReadBlockLines | src/OmniSharp.MSBuild/SolutionParsing/ProjectBlock.cs:83-98 | the loop yields the sections and final position of `ReadSections` |
| ProjectBlock.ReadSectionsStep | src/OmniSharp.MSBuild/SolutionParsing/ProjectBlock.cs:84-98 | a line that is not `EndProject` contributes its section before those of the lines after it |
| ProjectBlock.LoopStep | src/OmniSharp.MSBuild/SolutionParsing/ProjectBlock.cs:84-98 | the loop invariant is kept from one turn to the next |
| ProjectBlock.Parse | src/OmniSharp.MSBuild/SolutionParsing/ProjectBlock.cs:52-100 | a non-header line gives null, a bad path throws, both without reading; otherwise the block holds the header fields and the sections read up to `EndProject` |
| ProjectBlock.UnsupportedIgnoresCase | src/OmniSharp.MSBuild/SolutionParsing/ProjectBlock.cs:38-41 | the unsupported test gives the same answer for type guids and paths that differ only in case |
| ProjectBlock.IsNotSupported | src/OmniSharp.MSBuild/SolutionParsing/ProjectBlock.cs:38-41 | a block is unsupported exactly when its type guid is the solution-folder or the legacy ASP.NET website guid, or its path starts with `HTTP://`, all ignoring case, so upper-casing the path first changes nothing |
| ProjectBlock.IsNotSupportedIgnoresCase | src/OmniSharp.MSBuild/SolutionParsing/ProjectBlock.cs:38-41 | `IsNotSupported` ignores the case of the type guid and the path |
| DocumentationComment.LineBreakLength | src/OmniSharp.Abstractions/Models/V1/TypeLookup/DocumentationComment.cs:134 | a line break is "\n" (length 1) or "\r\n" (length 2), and 0 means there is none |
| DocumentationComment.ConcatKeep | src/OmniSharp.Abstractions/Models/V1/TypeLookup/DocumentationComment.cs:134 | dropping an empty piece loses no text |
| DocumentationComment.SplitLinesKeepsText | src/OmniSharp.Abstractions/Models/V1/TypeLookup/DocumentationComment.cs:134 | the pieces of the split, put back together, are the text without its line breaks |
| DocumentationComment.SplitLinesPieces | src/OmniSharp.Abstractions/Models/V1/TypeLookup/DocumentationComment.cs:134 | with `RemoveEmptyEntries` no piece is empty, and no piece holds a line feed |
| DocumentationComment.TrimStartRetainingSingleLeadingSpace | src/OmniSharp.Abstractions/Models/V1/TypeLookup/DocumentationComment.cs:149-152 | the result is empty exactly for null or blank input (the other two branches are stated by `TrimStartRetainsSingleSpace`) |
| DocumentationComment.TrimStartRetainsSingleSpace | src/OmniSharp.Abstractions/Models/V1/TypeLookup/DocumentationComment.cs:149-156 | non-blank text without leading white space is returned unchanged; text with leading white space becomes one space followed by `TrimStart` of it; so the result starts with white space exactly when the input does, and then with a single space |
| DocumentationComment.TrimLines | src/OmniSharp.Abstractions/Models/V1/TypeLookup/DocumentationComment.cs:135 | every line is trimmed by `TrimStartRetainingSingleLeadingSpace`, none dropped or added |
| DocumentationComment.TrimmedLineHasNoLineFeed | src/OmniSharp.Abstractions/Models/V1/TypeLookup/DocumentationComment.cs:149-156 | trimming a line adds no line feed |
| DocumentationComment.JoinHasNoLineFeed | src/OmniSharp.Abstractions/Models/V1/TypeLookup/DocumentationComment.cs:135 | joining lines without line feeds by a separator without one gives none |
| DocumentationComment.TrimMultiLineString | src/OmniSharp.Abstractions/Models/V1/TypeLookup/DocumentationComment.cs:130-136 | a null comment gives the empty string; with a line ending that holds no line feed, the result holds none |
| DocumentationComment.GetCref | src/OmniSharp.Abstractions/Models/V1/TypeLookup/DocumentationComment.cs:138-147 | null or blank gives ""; a short reference is kept; otherwise a `X:` prefix is dropped and a space appended |
| DocumentationComment.CrefNameOfExceptions | src/OmniSharp.Abstractions/Models/V1/TypeLookup/DocumentationComment.cs:57 | an exception item is named after its target without the kind prefix or the appended space |
| DocumentationComment.UpperCaseNameMatchesNoLabel | src/OmniSharp.Abstractions/Models/V1/TypeLookup/DocumentationComment.cs:44-104 | an upper-cased element name matches no lower-case `case` label and is never "code" |
| DocumentationComment.AppendToLast | src/OmniSharp.Abstractions/Models/V1/TypeLookup/DocumentationComment.cs:58-75 | appending to the current item keeps the number of items |
| DocumentationComment.Append | src/OmniSharp.Abstractions/Models/V1/TypeLookup/DocumentationComment.cs:83-100 | appending to the current section keeps that section current and the builders in place |
| DocumentationComment.AppendOption | src/OmniSharp.Abstractions/Models/V1/TypeLookup/DocumentationComment.cs:83-95 | appending a null attribute value appends nothing and keeps the state well formed |
| DocumentationComment.ElementStep | src/OmniSharp.Abstractions/Models/V1/TypeLookup/DocumentationComment.cs:45-104 | the `switch` keeps the current builder in existence and records the element name |
| DocumentationComment.Step | src/OmniSharp.Abstractions/Models/V1/TypeLookup/DocumentationComment.cs:40-117 | each turn of the loop reads forward and keeps the state well formed |
| DocumentationComment.RunKeepsValid | src/OmniSharp.Abstractions/Models/V1/TypeLookup/DocumentationComment.cs:40-117 | the current builder always exists, so `Append` is never called on a missing builder |
| DocumentationComment.ReadSections | src/OmniSharp.Abstractions/Models/V1/TypeLookup/DocumentationComment.cs:36-127 | the loop's result is the reference run over the reader's nodes |
| DocumentationComment.From | src/OmniSharp.Abstractions/Models/V1/TypeLookup/DocumentationComment.cs:21-128 | a null or empty comment gives `Empty`; a reader that throws on the wrapped comment makes `From` throw the same exception; otherwise the result is the reference run over the nodes read, with names upper-cased as written |
| DocumentationComment.UpperCaseGathersNothing | src/OmniSharp.Abstractions/Models/V1/TypeLookup/DocumentationComment.cs:44-116 | with upper-cased names no section is ever selected and nothing is gathered |
| DocumentationComment.FromGathersNothing | src/OmniSharp.Abstractions/Models/V1/TypeLookup/DocumentationComment.cs:44-127 | as written, every non-empty comment gives empty texts and empty item lists |
| DocumentationComment.SummaryLostAsWritten | src/OmniSharp.Abstractions/Models/V1/TypeLookup/DocumentationComment.cs:44-66 | as written, `<summary>Hello</summary>` gives an empty summary |
| DocumentationComment.SummaryTextStep | src/OmniSharp.Abstractions/Models/V1/TypeLookup/DocumentationComment.cs:106-116 | a text node in the summary is appended, trimmed, to the summary |
| DocumentationComment.SummaryGathersText | src/OmniSharp.Abstractions/Models/V1/TypeLookup/DocumentationComment.cs:106-117 | text nodes after a summary element are gathered in order into the summary and nowhere else |
| DocumentationComment.SummaryElementStep | src/OmniSharp.Abstractions/Models/V1/TypeLookup/DocumentationComment.cs:44-66 | with lower-cased names, a summary element in any case opens the summary |
| DocumentationComment.IntendedSummaryGathered | src/OmniSharp.Abstractions/Models/V1/TypeLookup/DocumentationComment.cs:44-117 | with lower-cased names a summary element's text lands in the summary |
| DocumentationComment.FindDocumentation | src/OmniSharp.Abstractions/Models/V1/TypeLookup/DocumentationComment.cs:159 | the documentation of the first item with that name, or "" when there is none |
| DocumentationComment.GetParameterText | src/OmniSharp.Abstractions/Models/V1/TypeLookup/DocumentationComment.cs:158-159 | a null parameter list throws `ArgumentNullException`; otherwise the first match's documentation or "" |
| DocumentationComment.GetTypeParameterText | src/OmniSharp.Abstractions/Models/V1/TypeLookup/DocumentationComment.cs:161-162 | the same lookup over the type parameters, with the same throw |
| DocumentationComment.EmptyCommentParameterThrows | src/OmniSharp.Abstractions/Models/V1/TypeLookup/DocumentationComment.cs:158-164 | the `Empty` comment, with its null lists, throws on every lookup |
| DocumentationComment.IntendedGetParameterText | src/OmniSharp.Abstractions/Models/V1/TypeLookup/DocumentationComment.cs:158-159 | a null list holds no parameters, so the lookup gives ""; otherwise it agrees with the lookup as written |
| WorkspaceInitializer.EnabledFlag | src/OmniSharp.Host/WorkspaceInitializer.cs:52-53 | an absent `enabled` value gives the system's default, a boolean gives itself, and an unconvertible one throws `InvalidOperationException` |
| WorkspaceInitializer.AscendingCons | src/OmniSharp.Host/WorkspaceInitializer.cs:86 | a provider of order at most every other's may lead an ascending sequence |
| WorkspaceInitializer.InsertByOrder | src/OmniSharp.Host/WorkspaceInitializer.cs:86 | inserting a provider keeps the sequence in ascending order and adds exactly that provider |
| WorkspaceInitializer.OrderByOrder | src/OmniSharp.Host/WorkspaceInitializer.cs:86 | `OrderBy(x => x.Order)` is in ascending order and a permutation of the providers |
| WorkspaceInitializer.ProviderStep | src/OmniSharp.Host/WorkspaceInitializer.cs:89-103 | a provider's options are applied exactly when `Process` succeeds and `TryApplyChanges` accepts them; otherwise the options stay |
| WorkspaceInitializer.ProvidersRun | src/OmniSharp.Host/WorkspaceInitializer.cs:87-104 | each provider leaves one event |
| WorkspaceInitializer.EveryProviderRuns | src/OmniSharp.Host/WorkspaceInitializer.cs:87-104 | every provider gets its turn, in order, whatever the earlier ones did |
| WorkspaceInitializer.FailedProviderChangesNothing | src/OmniSharp.Host/WorkspaceInitializer.cs:94-103 | a provider that throws or is refused leaves the options for the rest as they were |
| WorkspaceInitializer.SystemStep | src/OmniSharp.Host/WorkspaceInitializer.cs:50-69 | each project system leaves one event of its own |
| WorkspaceInitializer.SystemStepCallsIffEnabled | src/OmniSharp.Host/WorkspaceInitializer.cs:52-57 | `Initalize` is called exactly when the flag is true, and for an absent flag exactly when the system is enabled by default |
| WorkspaceInitializer.SystemsRun | src/OmniSharp.Host/WorkspaceInitializer.cs:48-70 | each project system leaves one event |
| WorkspaceInitializer.SystemsRunSteps | src/OmniSharp.Host/WorkspaceInitializer.cs:48-70 | the systems' events are their turns, in order |
| WorkspaceInitializer.FailuresAreIsolated | src/OmniSharp.Host/WorkspaceInitializer.cs:48-70 | every system gets its own turn and `Initalize` is called on exactly the enabled ones, an earlier exception notwithstanding |
| WorkspaceInitializer.ProviderEventsAscending | src/OmniSharp.Host/WorkspaceInitializer.cs:86-104 | the providers run in ascending order, one event each |
| WorkspaceInitializer.TraceLayout | src/OmniSharp.Host/WorkspaceInitializer.cs:30-73 | the trace is the forwarder, the providers' events, the systems' events and the initialized mark, in that order |
| WorkspaceInitializer.TraceProvidersAscending | src/OmniSharp.Host/WorkspaceInitializer.cs:37-104 | in the trace the providers' turns follow the forwarder in ascending order |
| WorkspaceInitializer.TraceSystemsInOrder | src/OmniSharp.Host/WorkspaceInitializer.cs:47-73 | in the trace the systems' turns follow the providers', one per system in order, and the initialized mark comes last |
| WorkspaceInitializer.SystemsAfterProviders | src/OmniSharp.Host/WorkspaceInitializer.cs:47-73 | the systems' events sit after the providers' and before the initialized mark |
| WorkspaceInitializer.InitializeOrder | src/OmniSharp.Host/WorkspaceInitializer.cs:19-76 | the forwarder starts first, the providers run in ascending order before the project systems, and the workspace is marked initialized last |
| WorkspaceInitializer.Host.constructor | src/OmniSharp.Host/WorkspaceInitializer.cs:24 | a new workspace has nothing initialized, editor config off, its options and no events |
| WorkspaceInitializer.Host.ProvideWorkspaceOptions | src/OmniSharp.Host/WorkspaceInitializer.cs:78-105 | the options left by the providers in ascending order, one event each, and nothing else changes |
| WorkspaceInitializer.Host.OnOptionsChanged | src/OmniSharp.Host/WorkspaceInitializer.cs:34-45 | a change sets the editor-config flag and runs the providers again |
| WorkspaceInitializer.Host.InitializeProjectSystems | src/OmniSharp.Host/WorkspaceInitializer.cs:47-70 | every system's turn is recorded in order and the workspace is otherwise unchanged |
| WorkspaceInitializer.Host.Initialize | src/OmniSharp.Host/WorkspaceInitializer.cs:19-76 | the forwarder and workspace end initialized, editor config follows the option, the options are the providers' result, and the events are the initialization trace |
| MSBuildProjectSystem.LoadProject | src/OmniSharp.MSBuild/MSBuildProjectSystem.cs:313-339 | a project file loads exactly when the loader knows it, and it carries the path it was loaded from |
| MSBuildProjectSystem.SolutionPathsSound | src/OmniSharp.MSBuild/MSBuildProjectSystem.cs:149-173 | every path returned is a `.csproj` of a solution entry that is not a folder and was not seen before |
| MSBuildProjectSystem.SoundPathsSkipped | src/OmniSharp.MSBuild/MSBuildProjectSystem.cs:151-165 | a skipped entry keeps the returned paths sound |
| MSBuildProjectSystem.SoundPathsVisited | src/OmniSharp.MSBuild/MSBuildProjectSystem.cs:157-172 | a visited entry keeps the returned paths sound |
| MSBuildProjectSystem.SolutionPathsDistinct | src/OmniSharp.MSBuild/MSBuildProjectSystem.cs:146-172 | no project is returned twice, even under another spelling of its path |
| MSBuildProjectSystem.LastDotIgnoresCase | src/OmniSharp.MSBuild/MSBuildProjectSystem.cs:167 | upper-casing moves no dot or separator, so the extension is found at the same place |
| MSBuildProjectSystem.ExtensionOfUpperCase | src/OmniSharp.MSBuild/MSBuildProjectSystem.cs:167 | the extension of an upper-cased path is the upper-cased extension |
| MSBuildProjectSystem.ProjectFileIgnoresCase | src/OmniSharp.MSBuild/MSBuildProjectSystem.cs:146-167 | two spellings of one path are both `.csproj` files or neither |
| MSBuildProjectSystem.IsCSharpProjectFile | src/OmniSharp.MSBuild/MSBuildProjectSystem.cs:167 | a C# project file has the extension `.csproj` in any casing, so its path ends so |
| MSBuildProjectSystem.SolutionPathsCompleteAt | src/OmniSharp.MSBuild/MSBuildProjectSystem.cs:149-173 | an unseen `.csproj` entry is returned, possibly under the spelling met first |
| MSBuildProjectSystem.SolutionPathsComplete | src/OmniSharp.MSBuild/MSBuildProjectSystem.cs:141-176 | every `.csproj` entry not in a solution folder is returned, possibly under the spelling met first |
| Text.Without | src/OmniSharp.MSBuild/MSBuildProjectSystem.cs:404-408 | the elements kept are exactly those not removed, as for the documents left after `UpdateSourceFiles`; the Cake project system removes metadata references the same way (`CakeProjectSystem.cs` lines 232-235) |
| MSBuildProjectSystem.ReconcileDocumentsSpec | src/OmniSharp.MSBuild/MSBuildProjectSystem.cs:385-402 | for a list without duplicates, the documents left to remove are the unlisted ones and the files added are the listed ones that are new and exist |
| MSBuildProjectSystem.ReconcileDocuments | src/OmniSharp.MSBuild/MSBuildProjectSystem.cs:385-402 | a current document stays to be removed exactly when it is not listed; only listed files that exist are added, and every listed existing file that is not a current document is |
| MSBuildProjectSystem.DocumentsReconciled | src/OmniSharp.MSBuild/MSBuildProjectSystem.cs:380-409 | for a list without duplicates, the documents are the listed existing documents and the listed new files that exist, and no existing document is added again |
| MSBuildProjectSystem.WithoutKeys | src/OmniSharp.MSBuild/MSBuildProjectSystem.cs:564-567 | the references kept are exactly those whose key, ignoring case, is not removed |
| MSBuildProjectSystem.ScanMetadataRemoves | src/OmniSharp.MSBuild/MSBuildProjectSystem.cs:540-553 | the references left to remove are the original ones except the listed existing files, compared ignoring case |
| MSBuildProjectSystem.ScanMetadataReferences | src/OmniSharp.MSBuild/MSBuildProjectSystem.cs:540-562 | keys only leave the set to remove and only join the set to add; every added reference is a listed path whose file exists |
| MSBuildProjectSystem.ScanMetadataAddsBounded | src/OmniSharp.MSBuild/MSBuildProjectSystem.cs:540-562 | every new listed existing file is added, and nothing else is |
| MSBuildProjectSystem.ScanMetadataAddsNew | src/OmniSharp.MSBuild/MSBuildProjectSystem.cs:540-562 | without duplicates in the list, the added references are exactly the new listed existing files |
| MSBuildProjectSystem.ScanMetadataKeys | src/OmniSharp.MSBuild/MSBuildProjectSystem.cs:537-562 | the scan's two sets: what remains to remove, the bounds on what is added, and the exact additions without duplicates |
| MSBuildProjectSystem.ScanMetadataAdded | src/OmniSharp.MSBuild/MSBuildProjectSystem.cs:555-560 | every added reference exists and is added once, ignoring case |
| MSBuildProjectSystem.MetadataReferencesReconciled | src/OmniSharp.MSBuild/MSBuildProjectSystem.cs:535-568 | the references afterwards are, ignoring case, exactly the listed files that exist; each added one exists; without duplicates in the list none is held twice |
| MSBuildProjectSystem.ListedTwiceIsAddedAgain | src/OmniSharp.MSBuild/MSBuildProjectSystem.cs:550-559 | a reference already present and listed twice is added again at its second listing |
| MSBuildProjectSystem.UpdatedParseOptions | src/OmniSharp.MSBuild/MSBuildProjectSystem.cs:437-462 | the options afterwards match the arguments; matching options are kept; without XML documentation the new options only parse comments |
| MSBuildProjectSystem.UpdateParseOptionsIdempotent | src/OmniSharp.MSBuild/MSBuildProjectSystem.cs:441-447 | updating the parse options a second time with the same values changes nothing |
| MSBuildProjectSystem.BuildSpecificDiagnosticOptions | src/OmniSharp.MSBuild/MSBuildProjectSystem.cs:264-281 | the map built entry by entry is the specific diagnostic options |
| MSBuildProjectSystem.SpecificDiagnosticOptions | src/OmniSharp.MSBuild/MSBuildProjectSystem.cs:264-281 | the keys are exactly CS1701, CS1702, CS1705 and the suppressed ids, each mapped to `Suppress` |
| MSBuildProjectSystem.CompilationOptionsFor | src/OmniSharp.MSBuild/MSBuildProjectSystem.cs:253-298 | the output kind and unsafe flag are copied; the key file is set exactly for a signed assembly with a named key, combined with the directory; the XML resolver exactly for a named documentation file |
| MSBuildProjectSystem.CreateCompilationOptions | src/OmniSharp.MSBuild/MSBuildProjectSystem.cs:253-298 | the options built step by step are the compilation options of the project |
| MSBuildProjectSystem.FindProject | src/OmniSharp.MSBuild/MSBuildProjectSystem.cs:367 | the index of the first workspace project with the id, or none exactly when no project has it |
| MSBuildProjectSystem.WithProjectAdded | src/OmniSharp.MSBuild/MSBuildProjectSystem.cs:214-233 | the project is tracked under its path and appended to the workspace; the queue, events and root are unchanged |
| MSBuildProjectSystem.Registered | src/OmniSharp.MSBuild/MSBuildProjectSystem.cs:186-195 | an unknown path is tracked and added to the workspace; a known one has its entry replaced and the workspace kept |
| MSBuildProjectSystem.NewWorkspaceProjects | src/OmniSharp.MSBuild/MSBuildProjectSystem.cs:485 | one new workspace project per loaded project, in order |
| MSBuildProjectSystem.UntrackedOfTracked | src/OmniSharp.MSBuild/MSBuildProjectSystem.cs:473-489 | tracking a loadable untracked file uses one up, and tracking never makes more available |
| MSBuildProjectSystem.StepLoads | src/OmniSharp.MSBuild/MSBuildProjectSystem.cs:473-491 | a reference path loads a project exactly when it is unknown, exists and loads, and that project is then tracked |
| MSBuildProjectSystem.ScanReferencesExtends | src/OmniSharp.MSBuild/MSBuildProjectSystem.cs:471-512 | the scan keeps every tracked entry |
| MSBuildProjectSystem.ScanReferences | src/OmniSharp.MSBuild/MSBuildProjectSystem.cs:471-512 | original references are only met, added ones only gained, and tracked projects stay tracked |
| MSBuildProjectSystem.ScanReferencesLoads | src/OmniSharp.MSBuild/MSBuildProjectSystem.cs:481-489 | the scan only appends loaded projects, one per loadable file it tracks |
| MSBuildProjectSystem.StepTracks | src/OmniSharp.MSBuild/MSBuildProjectSystem.cs:473-491 | what one reference path leaves tracked |
| MSBuildProjectSystem.ResolvedIdsStep | src/OmniSharp.MSBuild/MSBuildProjectSystem.cs:471-499 | resolving a path adds its project's id, when it resolves, to the ids listed so far |
| MSBuildProjectSystem.ReferenceStepSets | src/OmniSharp.MSBuild/MSBuildProjectSystem.cs:493-511 | one path keeps the invariant of the reference sets: unmet originals remain, added ones are new, together the listed tracked ids |
| MSBuildProjectSystem.ScanReferencesSets | src/OmniSharp.MSBuild/MSBuildProjectSystem.cs:471-512 | the invariant of the reference sets holds after the whole loop |
| MSBuildProjectSystem.ScanReferencesTracks | src/OmniSharp.MSBuild/MSBuildProjectSystem.cs:473-491 | a listed path is tracked afterwards exactly when it was tracked or exists and loads; nothing else becomes tracked |
| MSBuildProjectSystem.ProjectReferencesReconciled | src/OmniSharp.MSBuild/MSBuildProjectSystem.cs:464-518 | the project references exactly the listed projects that resolve, a listed unknown file that exists and loads now among them |
| MSBuildProjectSystem.ProjectReferencesFrame | src/OmniSharp.MSBuild/MSBuildProjectSystem.cs:464-518 | only that project's references change; loaded projects are appended to the workspace and the queue, one per file used up |
| MSBuildProjectSystem.GrowsTransitive | src/OmniSharp.MSBuild/MSBuildProjectSystem.cs:365-378 | growth composes over successive updates |
| MSBuildProjectSystem.UpdatedGrows | src/OmniSharp.MSBuild/MSBuildProjectSystem.cs:365-378 | an update only tracks more projects, enqueues one per project it loads, and reports nothing |
| MSBuildProjectSystem.DependencyEvents | src/OmniSharp.MSBuild/MSBuildProjectSystem.cs:570-596 | nothing without unresolved packages; else one restore of the project's directory when restoring is allowed and enabled, or otherwise one report of them |
| MSBuildProjectSystem.RegisterAllKeys | src/OmniSharp.MSBuild/MSBuildProjectSystem.cs:184-198 | dequeuing tracks every dequeued path and keeps the others |
| MSBuildProjectSystem.RegisterAllFrame | src/OmniSharp.MSBuild/MSBuildProjectSystem.cs:184-198 | dequeuing changes only the tracked projects and the workspace |
| MSBuildProjectSystem.UpdateAllGrows | src/OmniSharp.MSBuild/MSBuildProjectSystem.cs:201-204 | updating a batch only grows the state |
| MSBuildProjectSystem.CheckAllReports | src/OmniSharp.MSBuild/MSBuildProjectSystem.cs:207-210 | checking a batch appends each project's reports in dequeue order |
| MSBuildProjectSystem.BatchSpec | src/OmniSharp.MSBuild/MSBuildProjectSystem.cs:182-210 | a round tracks every dequeued path, reports in dequeue order after all updates, and leaves queued only projects loaded meanwhile |
| MSBuildProjectSystem.BatchDecreases | src/OmniSharp.MSBuild/MSBuildProjectSystem.cs:180-211 | each round uses up a loadable file or leaves the queue shorter, so processing ends |
| MSBuildProjectSystem.ProcessedSpec | src/OmniSharp.MSBuild/MSBuildProjectSystem.cs:178-488 | processing ends with an empty queue, every queued path tracked, nothing tracked dropped and earlier reports kept |
| MSBuildProjectSystem.FinishesAfterBatch | src/OmniSharp.MSBuild/MSBuildProjectSystem.cs:180-211 | a round followed by the rest of the processing finishes what the round started from |
| MSBuildProjectSystem.InitialProjectPaths | src/OmniSharp.MSBuild/MSBuildProjectSystem.cs:118-139 | the given solution's projects, else the found solution's, else every `*.csproj`; a parse failure propagates; the root recorded is the source used |
| MSBuildProjectSystem.InitialQueueLoaded | src/OmniSharp.MSBuild/MSBuildProjectSystem.cs:97-113 | every enqueued project is loaded from a listed existing file, and every listed existing loadable file is enqueued |
| MSBuildProjectSystem.WithoutPath | src/OmniSharp.MSBuild/MSBuildProjectSystem.cs:419-422 | the documents kept are exactly those whose path differs, ignoring case |
| MSBuildProjectSystem.WithoutDocument | src/OmniSharp.MSBuild/MSBuildProjectSystem.cs:419-422 | every project loses its documents at the path and nothing else |
| MSBuildProjectSystem.ProjectOfDocument | src/OmniSharp.MSBuild/MSBuildProjectSystem.cs:619-623 | the project holding a document at the path, or none exactly when no project holds one |
| MSBuildProjectSystem.RemovedDocumentIsGone | src/OmniSharp.MSBuild/MSBuildProjectSystem.cs:417-423 | once removed, no project holds a document at the path |
| MSBuildProjectSystem.ReconcileSourceFiles | src/OmniSharp.MSBuild/MSBuildProjectSystem.cs:382-402 | the loop's result is the reference reconciliation, and no added file is among those left to remove |
| MSBuildProjectSystem.ScanReferencePaths | src/OmniSharp.MSBuild/MSBuildProjectSystem.cs:537-562 | the loop's sets and additions are the reference scan, and no added reference is among those left to remove |
| MSBuildProjectSystem.UpdatedSteps | src/OmniSharp.MSBuild/MSBuildProjectSystem.cs:374-377 | the four updates in order give the updated project |
| MSBuildProjectSystem.SolutionEntrySkipped | src/OmniSharp.MSBuild/MSBuildProjectSystem.cs:151-165 | a solution folder or an entry seen before adds nothing |
| MSBuildProjectSystem.SolutionEntryFirst | src/OmniSharp.MSBuild/MSBuildProjectSystem.cs:157-172 | an unseen entry is returned first when it is a `.csproj`, and is marked seen |
| MSBuildProjectSystem.SolutionEntryVisited | src/OmniSharp.MSBuild/MSBuildProjectSystem.cs:157-172 | the loop's result so far followed by the rest is kept across one entry |
| MSBuildProjectSystem.GetProjectPathsFromSolution | src/OmniSharp.MSBuild/MSBuildProjectSystem.cs:141-176 | the loop returns the reference solution paths |
| MSBuildProjectSystem.VisitSolutionEntry | src/OmniSharp.MSBuild/MSBuildProjectSystem.cs:151-172 | one turn of the loop keeps the result-so-far-plus-rest invariant |
| MSBuildProjectSystem.InitializedTracksInitialProjects | src/OmniSharp.MSBuild/MSBuildProjectSystem.cs:82-116 | after `Initalize` every existing loadable initial path is tracked, nothing is queued and the root is recorded |
| MSBuildProjectSystem.ProjectSystem.constructor | src/OmniSharp.MSBuild/MSBuildProjectSystem.cs:57-80 | a new system tracks nothing, queues nothing, has reported nothing and has no root |
| MSBuildProjectSystem.ProjectSystem.AddProject | src/OmniSharp.MSBuild/MSBuildProjectSystem.cs:214-233 | the system's new state is the project added |
| MSBuildProjectSystem.ProjectSystem.FindProjectIndex | src/OmniSharp.MSBuild/MSBuildProjectSystem.cs:367 | the search finds the first workspace project with the id |
| MSBuildProjectSystem.ProjectSystem.UpdateSourceFiles | src/OmniSharp.MSBuild/MSBuildProjectSystem.cs:380-409 | only that project's documents change, to the reconciled documents |
| MSBuildProjectSystem.ProjectSystem.UpdateParseOptions | src/OmniSharp.MSBuild/MSBuildProjectSystem.cs:437-462 | only that project's parse options change, to the updated options |
| MSBuildProjectSystem.ProjectSystem.UpdateProjectReferences | src/OmniSharp.MSBuild/MSBuildProjectSystem.cs:464-518 | the new state is the reconciled project references with loaded projects added and enqueued |
| MSBuildProjectSystem.ProjectSystem.UpdateReferences | src/OmniSharp.MSBuild/MSBuildProjectSystem.cs:535-568 | only that project's metadata references change, to the reconciled references |
| MSBuildProjectSystem.ProjectSystem.UpdateProject | src/OmniSharp.MSBuild/MSBuildProjectSystem.cs:365-378 | a project the workspace lacks is left alone; otherwise sources, parse options, project references and metadata references are updated in order |
| MSBuildProjectSystem.ProjectSystem.CheckForUnresolvedDependences | src/OmniSharp.MSBuild/MSBuildProjectSystem.cs:570-596 | only the events change, by the dependency events of the project |
| MSBuildProjectSystem.ProjectSystem.ProcessProjects | src/OmniSharp.MSBuild/MSBuildProjectSystem.cs:178-212 | the new state is where processing from the old state ends |
| MSBuildProjectSystem.ProjectSystem.DequeueAll | src/OmniSharp.MSBuild/MSBuildProjectSystem.cs:182-198 | the whole queue is dequeued, in order, and each project registered |
| MSBuildProjectSystem.ProjectSystem.DequeueOne | src/OmniSharp.MSBuild/MSBuildProjectSystem.cs:186-197 | the head of the queue is dequeued and registered |
| MSBuildProjectSystem.ProjectSystem.GetInitialProjectPaths | src/OmniSharp.MSBuild/MSBuildProjectSystem.cs:118-139 | the paths are the initial project paths, and only the root changes |
| MSBuildProjectSystem.ProjectSystem.Initalize | src/OmniSharp.MSBuild/MSBuildProjectSystem.cs:82-116 | a solution that fails to parse leaves only the root recorded; otherwise the initial projects that exist and load are enqueued and processed |
| MSBuildProjectSystem.ProjectSystem.EnqueueInitialProjects | src/OmniSharp.MSBuild/MSBuildProjectSystem.cs:97-113 | the existing loadable initial projects are appended to the queue, in order |
| MSBuildProjectSystem.ProjectSystem.OnDirectoryFileChanged | src/OmniSharp.MSBuild/MSBuildProjectSystem.cs:414-435 | a deletion, or an unspecified change to a missing file, removes the path's documents; a creation or unspecified change of an existing `.cs` file updates its buffer from disk |
| MSBuildProjectSystem.ProjectSystem.RemoveDocuments | src/OmniSharp.MSBuild/MSBuildProjectSystem.cs:419-422 | every document at the path leaves its project, and nothing else changes |
| MSBuildProjectSystem.ProjectSystem.GetProjectModel | src/OmniSharp.MSBuild/MSBuildProjectSystem.cs:598-635 | the tracked information of the project holding a document at the path, else of the project file at the path, or null when untracked |
| CakeProjectSystem.OptionsFor | src/OmniSharp.Cake/CakeProjectSystem.cs:184-311 | null usings give the shared options, otherwise the shared options with those usings |
| CakeProjectSystem.ExistingReferences | src/OmniSharp.Cake/CakeProjectSystem.cs:320-332 | exactly the listed references whose files exist, never more than listed |
| CakeProjectSystem.ExistingReferencesConcat | src/OmniSharp.Cake/CakeProjectSystem.cs:320-332 | the filter keeps the order of the references |
| CakeProjectSystem.ExistingReferencesAll | src/OmniSharp.Cake/CakeProjectSystem.cs:320-332 | references whose files all exist are kept as they are |
| CakeProjectSystem.GetMetadataReferences | src/OmniSharp.Cake/CakeProjectSystem.cs:320-332 | the loop yields the existing references, in order |
| CakeProjectSystem.ExistingReferencesStep | src/OmniSharp.Cake/CakeProjectSystem.cs:322-330 | one turn of the loop keeps the result-so-far-plus-rest invariant |
| CakeProjectSystem.ScanReferences | src/OmniSharp.Cake/CakeProjectSystem.cs:216-230 | an original reference is struck from the set to remove exactly when it is listed; every listed reference that was not an original one is added, only listed references are, and none of them is still to remove |
| CakeProjectSystem.ReconciledReferences | src/OmniSharp.Cake/CakeProjectSystem.cs:207-236 | the references afterwards are exactly the listed ones, as a set |
| CakeProjectSystem.HoldsScript | src/OmniSharp.Cake/CakeProjectSystem.cs:201 | a project at the script's own path holds it, and the path is compared ignoring case |
| CakeProjectSystem.ScanAddsOnce | src/OmniSharp.Cake/CakeProjectSystem.cs:223-229 | no reference is added twice |
| CakeProjectSystem.WithoutDistinct | src/OmniSharp.Cake/CakeProjectSystem.cs:232-235 | removing references keeps them free of duplicates |
| CakeProjectSystem.ReferencesStayDistinct | src/OmniSharp.Cake/CakeProjectSystem.cs:207-236 | references without duplicates stay so when the list has none |
| CakeProjectSystem.HeldReferenceNotReAdded | src/OmniSharp.Cake/CakeProjectSystem.cs:218-229 | when the list names each reference once, a reference the project already held is not added again |
| CakeProjectSystem.ScanKeepsHad | src/OmniSharp.Cake/CakeProjectSystem.cs:218-229 | while the list names a reference at most once, a reference still to remove is never added |
| CakeProjectSystem.ProjectFor | src/OmniSharp.Cake/CakeProjectSystem.cs:277-318 | a missing host assembly throws `FileNotFoundException`, an unresolved host type `InvalidOperationException`; otherwise the project is named after the file, with `.dll` assembly, options for the usings and the existing references |
| CakeProjectSystem.Added | src/OmniSharp.Cake/CakeProjectSystem.cs:117-150 | on success a new project holding the script joins the workspace and becomes the path's entry; any failure changes nothing |
| CakeProjectSystem.WithoutProject | src/OmniSharp.Cake/CakeProjectSystem.cs:156 | the workspace loses exactly the projects with the id |
| CakeProjectSystem.Removed | src/OmniSharp.Cake/CakeProjectSystem.cs:152-159 | a tracked path's project leaves the workspace and the path is untracked; an untracked path changes nothing |
| CakeProjectSystem.ChangeKinds | src/OmniSharp.Cake/CakeProjectSystem.cs:161-172 | no event both removes and adds; a plain change does nothing; a deletion or unspecified change to a missing file removes; a creation or unspecified change to an existing file adds |
| CakeProjectSystem.Initialized | src/OmniSharp.Cake/CakeProjectSystem.cs:75-115 | the system ends initialized exactly when it was, or Cake files exist and the script service initializes; otherwise nothing changes |
| CakeProjectSystem.AddedAllKeepsInitialized | src/OmniSharp.Cake/CakeProjectSystem.cs:102-105 | adding the files does not touch the initialized flag |
| CakeProjectSystem.InitializeOnce | src/OmniSharp.Cake/CakeProjectSystem.cs:77-78 | once initialized, `Initalize` does nothing |
| CakeProjectSystem.UsingsChanged | src/OmniSharp.Cake/CakeProjectSystem.cs:174-195 | each project holding the script gets the options for the usings, and nothing else changes |
| CakeProjectSystem.UsingsChangedIdempotent | src/OmniSharp.Cake/CakeProjectSystem.cs:174-195 | setting the same usings twice is setting them once |
| CakeProjectSystem.ReferencesChanged | src/OmniSharp.Cake/CakeProjectSystem.cs:197-237 | each project holding the script reconciles its references with the existing listed ones, and nothing else changes |
| CakeProjectSystem.ReferencesChangedExactly | src/OmniSharp.Cake/CakeProjectSystem.cs:197-332 | each project holding the script then references exactly the listed files that exist |
| CakeProjectSystem.InitialValid | src/OmniSharp.Cake/CakeProjectSystem.cs:71 | a new system satisfies the tracking invariant |
| CakeProjectSystem.AddedValid | src/OmniSharp.Cake/CakeProjectSystem.cs:117-150 | adding a script keeps the tracking invariant |
| CakeProjectSystem.RemovedValid | src/OmniSharp.Cake/CakeProjectSystem.cs:152-159 | removing a script keeps the tracking invariant |
| CakeProjectSystem.ChangedValid | src/OmniSharp.Cake/CakeProjectSystem.cs:161-172 | a file event keeps the tracking invariant |
| CakeProjectSystem.UsingsChangedValid | src/OmniSharp.Cake/CakeProjectSystem.cs:174-195 | a usings change keeps the tracking invariant |
| CakeProjectSystem.ReferencesChangedValid | src/OmniSharp.Cake/CakeProjectSystem.cs:197-237 | a references change keeps the tracking invariant |
| CakeProjectSystem.AddedAllValid | src/OmniSharp.Cake/CakeProjectSystem.cs:102-105 | adding every file keeps the tracking invariant |
| CakeProjectSystem.InitializedValid | src/OmniSharp.Cake/CakeProjectSystem.cs:75-115 | `Initalize` keeps the tracking invariant |
| CakeProjectSystem.RemovedUntracks | src/OmniSharp.Cake/CakeProjectSystem.cs:152-159 | a removed path is untracked and its project gone, while every other tracked path keeps its entry and project |
| CakeProjectSystem.ReAddKeepsOldProject | src/OmniSharp.Cake/CakeProjectSystem.cs:127-141 | adding a tracked path again replaces its entry, and the earlier project stays in the workspace untracked |
| CakeProjectSystem.ProjectPathOf | src/OmniSharp.Cake/CakeProjectSystem.cs:259-260 | the path of a project holding a document at the path, else the path itself |
| CakeProjectSystem.ProjectModel | src/OmniSharp.Cake/CakeProjectSystem.cs:251-275 | a null path throws `ArgumentNullException`; a path not ending in `.cake` has no model; otherwise a model exactly when the holding project, or the path, is tracked |
| CakeProjectSystem.TrackedScriptHasModel | src/OmniSharp.Cake/CakeProjectSystem.cs:251-275 | a tracked script whose holding projects are tracked has a model |
| CakeProjectSystem.RemovedScriptHasNoModel | src/OmniSharp.Cake/CakeProjectSystem.cs:161-275 | a script whose deletion was reported has no model |
| CakeProjectSystem.CakeSystem.constructor | src/OmniSharp.Cake/CakeProjectSystem.cs:71-72 | a new system is not initialized and tracks nothing |
| CakeProjectSystem.CakeSystem.AddCakeFile | src/OmniSharp.Cake/CakeProjectSystem.cs:117-150 | the new state is the script added, or the old one on failure |
| CakeProjectSystem.CakeSystem.RemoveCakeFile | src/OmniSharp.Cake/CakeProjectSystem.cs:152-159 | the new state is the script removed |
| CakeProjectSystem.CakeSystem.OnCakeFileChanged | src/OmniSharp.Cake/CakeProjectSystem.cs:161-172 | the new state is the event's removal then addition |
| CakeProjectSystem.CakeSystem.Initalize | src/OmniSharp.Cake/CakeProjectSystem.cs:75-115 | the new state is the initialization of the old |
| CakeProjectSystem.CakeSystem.ScriptUsingsChanged | src/OmniSharp.Cake/CakeProjectSystem.cs:174-195 | the new state is the usings change |
| CakeProjectSystem.CakeSystem.ScriptReferencesChanged | src/OmniSharp.Cake/CakeProjectSystem.cs:197-237 | the new state is the references change |
| CakeProjectSystem.CakeSystem.GetProjectModel | src/OmniSharp.Cake/CakeProjectSystem.cs:251-275 | only a null path throws; a model, when there is one, is the `.cake` script's own path |
| CakeProjectSystem.CakeSystem.GetWorkspaceModel | src/OmniSharp.Cake/CakeProjectSystem.cs:241-249 | one context model for each tracked path, and no other |
| CakeProjectSystem.ReconcileReferences | src/OmniSharp.Cake/CakeProjectSystem.cs:213-235 | the loop gives the reconciled references |

## Left out

- I/O is not modelled: logging, the event emitter, process launching, file-system watchers and the transports. File and directory existence are predicates or sets passed in.
- Roslyn internals are not modelled. The workspace, `ProjectInfo`, compilation options and metadata references are abstract ids, paths, maps and sets.
- MEF composition, configuration binding and `.editorconfig` documents are not modelled. Option values are parameters.
- Concurrency is not modelled. `Lazy`, `Task`, `Interlocked` and `ConcurrentDictionary` are read as plain sequential code.
- Case-insensitive comparisons fold ASCII letters only. These are `ToUpperInvariant`, `OrdinalIgnoreCase` and `CurrentCultureIgnoreCase`. Full Unicode case mapping is not modelled.
- Culture-sensitive calls are modelled as ordinal comparisons. These are `EndsWith`, `IndexOf` and `StartsWith` with the invariant culture.
- `Guid.NewGuid()` is not modelled as randomness. `ProjectBlock` takes the guid text as a parameter, and `CakeProjectSystem` draws project ids from a counter.
- `CakeProjectSystem` finds the documents at a script's path ignoring case (ASCII letters only), as `HoldsScript` states. The workspace's own path comparer is not part of this model.
- CakeProjectSystem.ScanReferences: compares metadata references by their path strings, exactly. The source compares them with `MetadataReferenceEqualityComparer`, which is not part of this model.
- MSBuildProjectSystem.ProjectSystem.UpdateSourceFiles: does not model the `ArgumentException` that `ToDictionary` throws when a project already holds two documents at one path. The model reconciles such a project anyway.
- `MSBuildProjectSystem` looks up its loaded projects (the `projects` map of its state) by exact path string. The source keeps them in a `ProjectFileInfoCollection`, whose key comparer is not part of this model.
- Metadata and project references are sets. Roslyn's refusal to add a reference that is already present is not modelled.
- `MSBuildProjectSystem.GetWorkspaceModelAsync` is not modelled, because `MSBuildWorkspaceInfo` is not part of this model.
- The following parts of `MSBuildProjectSystem` are not modelled, because they only report events or register watchers:
  - `OnProjectChanged`;
  - `WatchProject`;
  - the diagnostics events of `LoadProject`.
- `SemanticVersion.Equals` is not modelled. It calls the record's synthesized `==`, which calls `Equals` again, so it does not terminate for distinct instances.
- SdkInstanceProvider.IncludeSdkInstance: takes the `SemanticVersion.Equals` test as an abstract parameter, for the same reason.
- `SemanticVersion.GetHashCode` and `string.GetHashCode` are not modelled. Where a hash matters, only the fact that equal values hash equally is stated.
- The process code of `DotNetCliService` is not modelled: `RestoreAsync`, its semaphore and per-directory lock, `GetVersion` and `GetInfo`.
- DotNetCliService.StartEnvironment: models the environment handed to the child process, not the launch itself. It is kept because of the second finding below.
- The `dotnet` executable name is the Unix one. No `.exe` suffix is modelled.
- The `/throw` route of `EndpointMiddleware` is not modelled. It raises `NotSupportedException` because its response type cannot be merged, and `EndpointHandler.Factory` and the predicate handlers are abstract here.
- `Scanner.cs` and `ProjectSectionBlock` are not part of this model. `ProjectBlock.Parse` takes the section parser as an abstract function of the lines, and lines are not trimmed.
- The source of `ProjectInformationResponse` is not part of this model. It is treated as a dictionary with `Add` semantics.
- SemanticVersioning.CompareIdentifiers: gives only the sign of the raw difference that `string.CompareOrdinal` returns for two non-numeric identifiers. The raw value is not modelled.
- SemanticVersioning.CompareIdentifierLists: gives -1, 0 or 1. Where the source returns `CompareOrdinal`'s raw difference, only its sign is kept.
- SemanticVersioning.PreLabelOrder: gives -1, 0 or 1. Where the source's `ComparePreLabel` returns `CompareOrdinal`'s raw difference (25 for "z" against "a"), only its sign is kept.
- SemanticVersioning.ComparePreLabel: returns the sign of the `CompareOrdinal` result where the source returns the raw difference.
- SemanticVersioning.CompareTo: gives -1, 0 or 1. With equal numbers the source passes on `ComparePreLabel`'s raw value, so `1.0.0-z` against `1.0.0-a` is 25 there and 1 here. The operators `<`, `<=`, `>` and `>=` use only the sign, so they are exact.
- WorkspaceInitializer.OrderByOrder: is proved sorted and a permutation. The stability of LINQ `OrderBy` is not stated.

## Findings

| source | as written | input that shows it | evidently intended | confidence | as-written member | corrected member |
|---|---|---|---|---|---|---|
| src/OmniSharp.Abstractions/SemanticVersion.cs:18-20 | the .NET `$` anchor also matches before a final line feed, so `TryParse` accepts a trailing line break | "1.2.3\n" parses as 1.2.3, which renders as "1.2.3", so the round trip fails | a parse that accepts only text that ends exactly, so that rendering the result gives the input back | not executed | SemanticVersioning.TrailingLineBreakAccepted | SemanticVersioning.StrictParseRoundTrip |
| src/OmniSharp.Abstractions/Models/ZeroBasedIndexConverter.cs:12-24 | `ReadJson` never consults the index mode, and it never subtracts 1 from an `int` or an `int?` | in one-based mode, 5 is written as 6 and 6 is read back as 6 | reading undoes writing in both modes | not executed | ZeroBasedIndexConverter.OneBasedIndexReadBackShifted | ZeroBasedIndexConverter.IntendedRoundTrip |
| src/OmniSharp.Abstractions/Models/V1/TypeLookup/DocumentationComment.cs:44-104 | element names are upper-cased, but every case label is lower-case, so no section is ever selected | `<summary>Hello</summary>` gives an empty summary | names folded to lower case, so that each section is gathered | not executed | DocumentationComment.FromGathersNothing | DocumentationComment.IntendedSummaryGathered |
| src/OmniSharp.Host/Services/DotNetCliService.cs:216-221 | the first disjunct of the test is `!HasError`, so every version read without error is legacy | the .NET 6.0.100 CLI, read without error, is reported legacy | a conjunction in place of that first disjunction: only an old or preview CLI is legacy | not executed | DotNetCliService.ModernCliReportedLegacy | DotNetCliService.LegacyOnlyForOldReleases |
| src/OmniSharp.Host/Services/DotNetCliService.cs:108-121 | the MSBuild variables are removed from a copy of `startInfo.Environment`, and the copy is then dropped | an environment that holds `MSBUILD_EXE_PATH` is handed to the child process unchanged | the variables removed from the environment of the child | not executed | DotNetCliService.StartEnvironment | DotNetCliService.IntendedStartEnvironment |
| src/OmniSharp.Abstractions/Models/V2/SemanticHighlight/SemanticHighlightSpan.cs:21-87 | `CompareTo(null)` returns 0, because every lifted comparison with null is false | for a span x, `null < x` holds but `x > null` does not, and `x <= null` holds | null ordered below every span, so that the operators are converses of each other | not executed | SemanticHighlightSpan.NullOrderAsymmetric | SemanticHighlightSpan.IntendedOperatorsConsistent |
| src/OmniSharp.Abstractions/Models/V1/TypeLookup/DocumentationComment.cs:158-164 | `Empty` has null parameter arrays, and `Array.Find` throws on a null array | `From("").GetParameterText("x")` throws `ArgumentNullException` | a null array treated as holding no parameters, giving "" | not executed | DocumentationComment.EmptyCommentParameterThrows | DocumentationComment.IntendedGetParameterText |
