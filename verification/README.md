# Models of the codegraph tool, the daemon's command protocol and the timeline merge

This project models three parts of Ieum and proves what they promise, for all inputs and all runs.

**The code graph** (`tools/codegraph.py`). A hand-written scanner finds the calls of a CMake text; a bounded
substitution loop expands `${name}` references; `set` calls are folded into an environment; include directives
are looked up among ten ranked candidates; and a builder quotients the file graph into a component graph, counts
every file, line, include and link, and renders a Mermaid diagram.

- `Text`, `TextLaws`, `Order`, `StableSorting`: strings, the lists `sorted` makes of sets, and stable sorting.
- `CMakeScanner`, `ScannerLaws`, `CallGrammar`, `ScannerSeams`: the scanner as two nested loops and as a recursive
  specification; what it reports on arbitrary text; the grammar of call bodies, against which the automaton is
  sound and complete; scanning piece by piece, and the print-and-scan round trip.
- `CMakeVariables`, `VariableTemplates`: expansion on arbitrary text, and on texts built of literals and
  references, where it is compared with full recursive expansion.
- `CMakeParser`, `CMakeLaws`, `CMakeCalls`: comments, function and macro blocks, `set` calls, target and link calls;
  and what each call means, told from its tokens.
- `RepoPaths`, `Components`, `ComponentFiles`, `Includes`: path normalisation, component classification and which files
  each component has, include resolution.
- `GraphTables`, `GraphBuilder`, `GraphLaws`, `GraphDeterminism`: the builder's maps and sets, what a finished
  graph says of its repository (`GraphBuilder.IsGraph`), and the conservation and quotient laws that follow.
- `GraphContents`, `GraphRows`: what a graph holds, told from the tracked files and their texts alone.
- `MermaidRenderer`, `MermaidLaws`, `MermaidText`, `MermaidWords`: the diagram, its text, and what its lines say.

**The daemon** (`src/apps/deskflow-daemon/DaemonApp.cpp`, with the IPC server and the Windows watchdog it talks to).
Client messages, turns of the watchdog's loop, its callbacks and the server's queued invocations interleave.
`DaemonProtocol` is the state machine, one atomic step at a time; `DaemonObjects` has the three classes whose
methods update their fields, each proved equal to the state machine's function on the old state, so that what is
proved of runs holds of the objects (`Serve`). `DaemonLaws` and `DaemonRuns` prove invariants over every run,
`DaemonReplies` what clients are told, `DaemonAnswers` that every request is answered, `DaemonConfig` what is set to
run and for which path, `DaemonModes` which core that is, `DaemonWatchdog` how the watchdog moves, and `DaemonStarts`
that a start reported successful did start. Requests are numbered as they are registered, since an id
may be used again once it is answered, and so are connections; the history of registrations, completions and
abandonments is kept beside the state.

**The timeline merge** (`tools/merge-input-timeline.py`): `Timeline`.

The reader of files, the language table, the shell-style tokenizer and the parser of time stamps are parameters, so
everything holds for whatever they return. The tokenizer may fail (it raises on an unfinished quote); the failure
propagates as it does in the tool.

## Results that differ from what one might expect

- A bound of twenty rounds is not a bound on nesting in general: expansion is complete exactly when no chain of
  defined references has more than twenty links (`ExpansionIsCompleteIff`), and a chain of twenty-one leaves one.
- Path normalisation is not idempotent on rooted paths. The root is joined like a segment, so `/a` becomes `//a`,
  `//a` becomes `///a`, and `///a` becomes `//a` again (`RootedNamesAlternate`, for every name). It is idempotent on
  a path text exactly if the path has no root, or its walk leaves the root, or ends there (`IdempotentIff`).
- A component's id determines its path exactly when it is neither in the `tool:` family nor `test:codegraph-tools`
  (`IdDeterminesPathIff`); for those the file visited last decides the path.
- The command the watchdog is set to run need not belong to the config path. Clearing the settings leaves it
  (`ClearingLeavesTheCommand`), and so does accepting another path (`ReplacingLeavesTheCommand`). Over every run from
  start-up it belongs exactly when no start was accepted since the last stop, or the path of the last accepted start
  is the one configured now (`RunsItsConfigIff`).

## Model

| member | source | states |
|---|---|---|
| CMakeScanner.HeadAtIsThePattern | tools/codegraph.py:304 | at each position the head search finds precisely the match of the pattern (word boundary, a name in any case, white space, parenthesis), whatever order the names take in the alternation |
| CMakeScanner.FindHeadIsLeftmost | tools/codegraph.py:306 | no head at or after the search position starts before the one found |
| CMakeScanner.ReadBody | tools/codegraph.py:307-324 | the inner loop ends with depth 0 and the index just past the closing parenthesis, or with a positive depth exactly when no prefix closes |
| CMakeScanner.IterCMakeCalls | tools/codegraph.py:303-329 | the two nested loops terminate on every text and yield what the recursive specification says |
| ScannerLaws.RunStaysSane | tools/codegraph.py:309-324 | `escaped` implies being inside a quote, and a body is never closed inside one, after any text |
| ScannerLaws.CloseIsFirstZero | tools/codegraph.py:311-327 | a body ends at `e` iff `e` is the first position at which the depth outside quotes is zero |
| ScannerLaws.ReportedSpans | tools/codegraph.py:305-329 | everything reported is a head with its balanced body; the spans are increasing and disjoint |
| ScannerLaws.EveryCallIsCovered | tools/codegraph.py:325-329 | every call of the text is reported or begins inside a reported one; an unclosed head hides neither later nor inner calls |
| ScannerLaws.ReportedIffOutermost | tools/codegraph.py:303-329 | a call is reported iff it does not begin inside a reported call: nested heads are never reported, outermost ones always |
| ScannerLaws.HeadsAreSpelled | tools/codegraph.py:304-306 | read letter by letter, a head stands at a position iff no word character precedes it and its letters spell one of the names, each in either case, then white space and a parenthesis; the call is reported under the name it spells |
| TextLaws.SpellsIff | tools/codegraph.py:304 | two words fold to one exactly when they agree letter by letter, each letter of the alphabet in either case and every other character itself |
| CallGrammar.TreesAreBalanced | tools/codegraph.py:311-324 | text printed from the grammar of bodies returns the automaton to where it started, and never closes it on the way |
| CallGrammar.TreeCloses | tools/codegraph.py:311-327 | a printed body followed by `)` is read as exactly that body, wherever it stands |
| CallGrammar.InnerClosesFirst | tools/codegraph.py:319-324 | one parenthesis deeper, the inner one closes first, outside quotes, and the rest closes the outer one |
| CallGrammar.BodyIffTree | tools/codegraph.py:311-327 | the automaton accepts a text as a whole body iff the grammar derives it |
| CallGrammar.ReportedBodiesAreTrees | tools/codegraph.py:303-329 | every body reported on any text is derived by the grammar |
| ScannerSeams.ScanIsSequential | tools/codegraph.py:303-329 | if the first fragment leaves no call open and the seam neither splits a word nor makes a head, the calls of a concatenation are those of the parts, the second's shifted |
| ScannerSeams.YieldsAreSequential | tools/codegraph.py:303-329 | the same for the yielded names and bodies, from the start of the text |
| ScannerSeams.RoundTrip | tools/codegraph.py:303-329 | printing any list of calls with head-free gaps and scanning it gives back exactly that list, names in lower case, whatever heads stand inside the bodies |
| CMakeVariables.ExpandVariables | tools/codegraph.py:339-349 | for any map, cyclic ones too, the loop returns the k-fold simultaneous substitution for the least fixed k below 20, or k = 20 |
| CMakeVariables.OneRoundIsEnough | tools/codegraph.py:342-347 | with plain values, over any text, one round leaves exactly the undefined references, creates none at a seam, and is a fixed point |
| CMakeVariables.PlainExpansion | tools/codegraph.py:339-349 | with plain values expansion is one substitution, and expanding again changes nothing |
| CMakeVariables.SeamsMatter | tools/codegraph.py:342-345 | each of the conditions on plain values is needed: an empty value, one starting with a brace and one ending with a dollar complete new references |
| CMakeCalls.RefsIff | tools/codegraph.py:20 | a text holds a reference iff `${` stands somewhere in it with a name that is not empty up to the next closing brace |
| VariableTemplates.RoundsAreSubstitutions | tools/codegraph.py:341-348 | on texts of literals and references, k rounds on characters are k substitutions on pieces |
| VariableTemplates.ExpansionIsCompleteIff | tools/codegraph.py:339-349 | no defined reference is left iff every chain of defined references has at most twenty links |
| VariableTemplates.ExpansionIsResolution | tools/codegraph.py:339-349 | with chains of at most twenty links the loop computes the full recursive expansion |
| VariableTemplates.ResolveIgnoresBound | tools/codegraph.py:339-349 | that recursive expansion does not depend on the bound that shows it ends |
| VariableTemplates.RankBoundsChains | tools/codegraph.py:341 | a rank falling along references (an acyclic environment) bounds the chains, so ranks below twenty suffice |
| VariableTemplates.TwentyIsTight | tools/codegraph.py:341 | a chain of twenty links is within the bound; in one of twenty-one a defined reference is left after expansion |
| CMakeParser.ValuesOf | tools/codegraph.py:369-373 | the loop collects the tokens before the first terminator, compared in upper case |
| CMakeParser.ParseCMakeVariables | tools/codegraph.py:356-378 | the loop over `set` calls folds the assignments in source order, from the initial values |
| CMakeCalls.SetAssigns | tools/codegraph.py:365-377 | told from its tokens alone: a `set` call binds its first token to the expansion of the tokens up to the first `CACHE`, `PARENT_SCOPE` or `FORCE` in any case, separated by single blanks, and binds nothing iff there are none, or fewer than two tokens, or the first begins `ENV{` |
| CMakeParser.ExpandTokens | tools/codegraph.py:408-411 | every token is expanded, in order |
| CMakeParser.DeclareTargets | tools/codegraph.py:414-422 | executables and libraries are named by their first token, tests by the token after the first `NAME` that has one |
| CMakeParser.CollectLinks | tools/codegraph.py:423-429 | every further token of a link call is linked unless it is a keyword or still holds a reference |
| CMakeParser.ParseCMake | tools/codegraph.py:381-433 | the loop over calls collects exactly the specification's targets and links, or fails when a body cannot be tokenized |
| CMakeLaws.AssignAllIsSequential | tools/codegraph.py:365-377 | assigning two lists of calls is assigning the second from the environment the first leaves; failure propagates |
| CMakeLaws.UnassignedNamesKeep | tools/codegraph.py:362-378 | a name no `set` call assigns keeps its initial value, and stays unbound if it was |
| CMakeLaws.CommentsAreLocal | tools/codegraph.py:299-300 | wherever a text is cut, in the middle of a line or of a line break too, stripping its comments is stripping those of the two parts, as long as no comment is open at the cut |
| CMakeLaws.VariablesAreSequential | tools/codegraph.py:356-378 | if the first fragment leaves no call and no comment open and the seam neither splits a word nor makes a call, reading the variables of both in a row is reading the second's from the environment the first leaves, wherever the text is cut |
| CMakeLaws.ExpandIsEval | tools/codegraph.py:376-377 | over values free of `$`, expanding a template is reading it once in the current environment |
| CMakeLaws.EvalIsFreeIff | tools/codegraph.py:376-377 | the stored value is free of `$` iff every name it refers to was bound before the call |
| CMakeLaws.VariablesAreEager | tools/codegraph.py:362-378 | for any calls, those that assign nothing among them, if every assigned value refers only to names bound before it, the stored values are the in-order evaluation and stay free of `$` (and of braces or any further marks) |
| CMakeLaws.TextIsEager | tools/codegraph.py:356-378 | the same for the variables of a text |
| CMakeLaws.LinkItemIff | tools/codegraph.py:426-429 | over plain variables a token becomes a link item iff its expansion is no keyword and all it refers to is defined |
| CMakeLaws.ParsedIff | tools/codegraph.py:407-429 | a link or target is collected iff some call of the text gives it |
| CMakeCalls.ValueHasEnd | tools/codegraph.py:369-373 | every call with tokens has an index at which its value ends |
| CMakeCalls.CollectedIff | tools/codegraph.py:407-429 | told from the expanded tokens alone: an executable is collected iff some `add_executable` call begins with its name, a library iff some `add_library` call does, a test iff some `create_test` call has it after the first `NAME` before the last token; a link iff a `target_link_libraries` call begins with its source and has its target later, none of the eight keywords in any case and free of references |
| CMakeCalls.TextDeclares | tools/codegraph.py:381-433 | of a whole text: what is declared and linked is what those calls of the cleaned text say, in the environment its own `set` calls leave on top of the given one |
| CMakeCalls.TextParsesIff | tools/codegraph.py:365-411 | parsing a text fails iff the body of some `set` call or of some target or link call cannot be tokenized |
| CMakeCalls.LineIsCut | tools/codegraph.py:299-300 | a line with no `#` stays as it is, and one with a `#` loses it and everything after it |
| CMakeCalls.BreaksAre | tools/codegraph.py:300 | the characters at which `splitlines` ends a line, by their code points |
| CMakeCalls.BlockIsThePattern | tools/codegraph.py:21-23 | a block stands at a position iff it matches the pattern: `function` or `macro` in any case, the first closing parenthesis, then the nearest `endfunction` or `endmacro` that has a closing parenthesis, up to the first such |
| CMakeCalls.CleanLeavesOut | tools/codegraph.py:352-353 | cleaning a text strips its comments first, then leaves out exactly the blocks of what is left, leftmost first, and keeps everything between them |
| RepoPaths.NormalizeRelativePath | tools/codegraph.py:257-268 | the loop over a list used as a stack computes the recursive walk, joined by slashes, or fails |
| RepoPaths.NormalFailsIff | tools/codegraph.py:262-264 | normalisation fails iff some prefix has more `..` than ordinary names |
| RepoPaths.NormalKeepsSurvivors | tools/codegraph.py:258-268 | otherwise the result lists, in order, exactly the names that are entered and never left, and no empty, `.` or `..` segment |
| RepoPaths.NormalComposes | tools/codegraph.py:257-268 | normalising a path before appending another changes nothing, failure of the first propagates, and normalising again changes nothing |
| RepoPaths.PartsOfJoin | tools/codegraph.py:268 | joined segments read back as the same path |
| RepoPaths.NormalizeIsIdempotent | tools/codegraph.py:257-268 | for relative paths, the text of the normal form reads back as itself and is its own normal form |
| RepoPaths.IdempotentIff | tools/codegraph.py:257-268 | for any path text that normalises, the normal form is its own normal form iff the text has no root, or its walk leaves the root, or ends at it |
| RepoPaths.RootedNamesAlternate | tools/codegraph.py:257-268 | for every name, `/name` normalises to `//name`, that to `///name`, and that to `//name` again |
| RepoPaths.ParentIs | tools/codegraph.py:283 | the parent of a path leaves out exactly its last part, and a root or the empty path is its own |
| Components.IdDetermines | tools/codegraph.py:162-248 | a component's id determines its kind, and its path unless it is a tool's or the codegraph tests' |
| Components.SameIdSameComponent | tools/codegraph.py:162-248 | files with one component id agree on the kind, and on the whole component unless the id is exempt |
| Components.ExemptIdsClash | tools/codegraph.py:190-213 | for every exempt id that a file has there are two files that share it and not the path |
| Components.IdDeterminesPathIff | tools/codegraph.py:162-248 | an id that a file has determines the component's path iff it is not exempt |
| Components.PathLeadsToFile | tools/codegraph.py:162-248 | for every path text, rooted ones too, a component's path is `.` or a segment-wise prefix of its file's path |
| ComponentFiles.LibraryFiles | tools/codegraph.py:178-183 | the files of `lib:x` are exactly those at least one level below `src/lib/x`, and its path is `src/lib/x` |
| ComponentFiles.ApplicationFiles | tools/codegraph.py:184-189 | the same for `app:x` and `src/apps/x` |
| ComponentFiles.TestFiles | tools/codegraph.py:190-201 | the files of `test:x` are exactly those below `src/unittests/x` and, for `codegraph-tools`, those below `tools/tests` |
| ComponentFiles.ToolFiles | tools/codegraph.py:202-213 | the files of `tool:x` are exactly those below `tools/x` and the files of `tools` whose name without its suffix is `x`, the tests aside |
| ComponentFiles.DeployFiles | tools/codegraph.py:214-221 | the files of `deploy:x` are exactly those below `deploy/x` and, for `root`, those directly in `deploy` |
| ComponentFiles.SupportFiles | tools/codegraph.py:167-248 | each of the seven support components has exactly the files of its own directory, the source lists are those of the three source groups, and `support:root` has exactly the files that no other family takes |
| ComponentFiles.SupportIdsTell | tools/codegraph.py:173-248 | a file has the id of one of the seven exactly if it has that component |
| Includes.DirectiveIsThePattern | tools/codegraph.py:14-15 | at each line start the directive found is precisely the match of the pattern, for quoted and for angle includes, and there is at most one |
| Includes.DirectivesAreBodies | tools/codegraph.py:251-254 | what is reported are the texts of directives at increasing positions, each after the end of the one before |
| Includes.EveryDirectiveIsCovered | tools/codegraph.py:251-254 | every directive of the text is reported, unless it begins inside the text of a reported one |
| Includes.DirectiveReportedIff | tools/codegraph.py:251-254 | a directive is reported iff it does not begin inside the text of a reported one |
| Includes.IncludesAre | tools/codegraph.py:14-15 | the quoted includes of a text are exactly the bodies of its reported directives with double quotes, the angle includes those with angle brackets |
| Includes.PlainCandidates | tools/codegraph.py:281-295 | for a plain include in a plain path the ten candidates are, in order, under the file's directory, its component's path (a prefix of the file's), the repository, `src/lib` and `src`, each followed by its template |
| Includes.SearchIsLeast | tools/codegraph.py:289-296 | over any list of roots the search returns the first tracked candidate, exact name before template, and nothing iff none is tracked |
| Includes.ResolveIsLeast | tools/codegraph.py:271-296 | resolution returns the least of ten ranked candidates that is tracked, and nothing iff none is |
| Includes.ResolveIsMonotone | tools/codegraph.py:271-296 | tracking more files never unresolves an include and moves it to an equal or earlier candidate |
| Includes.BackslashesAreSlashes | tools/codegraph.py:278-280 | writing some slashes as backslashes, in the file's path, in the include or in the tracked paths, changes neither the component nor what the include resolves to |
| Order.LessIff | tools/codegraph.py:599 | the order of sorted lists is the lexicographic one: the first place where two strings part decides, and a prefix comes first |
| Order.SortSet | tools/codegraph.py:599 | the list made of a set holds its elements once each, in increasing order |
| Order.SortedIsUnique | tools/codegraph.py:599 | a set has one such list, so sorting hides how the set was built |
| GraphTables.AddEdgeKeepsQuotient | tools/codegraph.py:584-597 | adding a witness keeps the edge table the exact quotient of the witnesses, and adds nothing inside a component |
| GraphTables.QuotientIsUnique | tools/codegraph.py:584-597 | the witnesses determine the edge table |
| GraphTables.AddDependencyKeepsIndex | tools/codegraph.py:608-610 | each external dependency lists exactly the files recorded for it |
| GraphBuilder.TakeInventory | tools/codegraph.py:554-569 | the first loop makes one node per file in order, groups all of them by component, and keeps the text of the text files |
| GraphBuilder.RecordDirective | tools/codegraph.py:604-622 | one turn accounts for one more directive in all four tables |
| GraphBuilder.RecordFile | tools/codegraph.py:602-622 | one file's turn accounts for exactly its distinct directives |
| GraphBuilder.ScanIncludes | tools/codegraph.py:599-622 | the loops account for exactly the directives of the C-family text files |
| GraphBuilder.ReadCMake | tools/codegraph.py:624-650 | the loop over CMake files collects their targets and links, gives each name to the component of the first file that declares it, and fails iff a file cannot be parsed |
| GraphBuilder.AddLinks | tools/codegraph.py:652-671 | links to declared targets extend the quotient, the others extend the external dependencies |
| GraphBuilder.CountFiles | tools/codegraph.py:680-686 | language counts and lines of one component are those of its files |
| GraphBuilder.Summarise | tools/codegraph.py:673-697 | one row per component, by id, counting exactly its files and naming exactly its targets |
| GraphBuilder.ListEdges | tools/codegraph.py:699-707 | one row per entry of the edge table, by source and target |
| GraphBuilder.BuildGraph | tools/codegraph.py:532-754 | the whole build ends in a graph that satisfies every clause of `IsGraph`, and fails iff some CMake text cannot be parsed |
| GraphContents.GraphIsBuiltIff | tools/codegraph.py:627-637 | the build succeeds iff the root file's `set` calls can be read, or there is no such file, and every CMake file parses in the environment they leave |
| GraphContents.TargetsAreDeclared | tools/codegraph.py:627-648 | the targets of a built graph are exactly those that parsing its CMake files in the root file's environment declares, each with its file's component |
| GraphContents.RootNameReachesTarget | tools/codegraph.py:627-648 | a name that the root file binds to a plain value and another file leaves alone: used there as `add_executable(${name} ...)` it makes a target of that value |
| GraphContents.OwnersAreFirst | tools/codegraph.py:640-648 | a name has an owner iff some target has that name, and the owner is the component of the first file, by path, that declares it |
| GraphContents.LinkEdgesAre | tools/codegraph.py:652-671 | the link edges lead from the owner of a link's source, or else from the component of the file it stands in, to the owner of its target, for exactly the links of the CMake files |
| GraphContents.FileEdgesAre | tools/codegraph.py:599-615 | a file edge is there iff its source is a C-family text file that quotes the include and the include resolves to its target; the quoted includes that do not resolve are the unresolved ones |
| GraphContents.DependenciesAre | tools/codegraph.py:606-666 | an external dependency lists a file iff the file includes the name in angle brackets, or quotes it and it does not resolve, or links it and no CMake file declares it |
| GraphContents.CMakePathIff | tools/codegraph.py:628-633 | the CMake files are those named `CMakeLists.txt` and those with the suffix `.cmake` in any case |
| GraphContents.CPathIff | tools/codegraph.py:25-36 | the C family are the files with one of the ten suffixes, in any case |
| GraphRows.LinesAreCounted | tools/codegraph.py:502-505 | a text has one line more than what follows its first line break, and its last line needs none |
| GraphRows.KeptInOrder | tools/codegraph.py:540-545 | the tracked files are kept in order unless their path begins `docs/codegraph/`; those that do are the excluded ones, in order |
| GraphRows.NodesAreTheFiles | tools/codegraph.py:554-569 | the nodes are those of the kept files, in order, each with its component, language, size and, if it is a text, its number of lines |
| GraphRows.RowCounts | tools/codegraph.py:675-697 | a component's row counts exactly the kept files of its id, all and by language, and the lines of its text files |
| GraphRows.RowDescribes | tools/codegraph.py:554-697 | a component's kind and path are those of its last kept file, and its targets the names of the graph's targets with that component |
| GraphRows.RowsAreTheComponents | tools/codegraph.py:677-697 | there is a row for each component of a kept file, and the ids increase |
| GraphLaws.TrackedIsExcludedPlusRepresented | tools/codegraph.py:540-545 | the tracked files, with repetitions, are the excluded and the represented ones |
| GraphLaws.GroupsPartition | tools/codegraph.py:568-569 | grouping nodes by any key and adding up any weight over the groups gives the total |
| GraphLaws.InventoryIsConserved | tools/codegraph.py:539-577 | tracked files are excluded plus represented; component file counts add up to the represented files and component line counts to the lines of all text files |
| GraphLaws.LanguagesAddUp | tools/codegraph.py:680-692 | a component's language counts add up to its file count |
| GraphLaws.RefsAreTheComponents | tools/codegraph.py:550-556 | the component table holds exactly the files' components, each described as one of its files says |
| GraphLaws.ComponentsAreOrderFree | tools/codegraph.py:554-556 | visiting the files in another order gives the same components, described alike unless their id is exempt |
| GraphLaws.IncludesSplit | tools/codegraph.py:604-612 | distinct quoted directives become, one for one, file edges or unresolved entries |
| GraphLaws.IncludesAreConserved | tools/codegraph.py:599-618 | in a built graph, file edges plus unresolved entries are the distinct quoted includes, added up file by file |
| GraphLaws.UnresolvedIsExternal | tools/codegraph.py:606-611 | an include is unresolved iff the external dependencies list it with its source |
| GraphLaws.ComponentEdgesAreTheQuotient | tools/codegraph.py:584-707 | a component edge exists iff its ends differ and some file edge or declared-target link joins them; its kinds say which of the two do, and its evidence holds exactly the lines of those file edges and links |
| GraphLaws.EndpointsAreListed | tools/codegraph.py:652-707 | both ends of every component edge are listed components, and differ |
| GraphDeterminism.GraphIsDetermined | tools/codegraph.py:532-754 | the graph, its target owners and its edge table are determined by the repository, whatever order sets are iterated in |
| GraphDeterminism.OwnersAreUnique | tools/codegraph.py:648 | the first-declaration rule determines every target's owner |
| StableSorting.SortSorts | tools/merge-input-timeline.py:57 | the sort is a sorted permutation |
| StableSorting.SortThenFilter | tools/merge-input-timeline.py:57 | sorting and then restricting to any kind of element is restricting and then sorting |
| StableSorting.StableSortIsUnique | tools/merge-input-timeline.py:57 | two sorted lists that agree on every class of equals are the same, so every stable sort computes this one |
| StableSorting.SortIsStable | tools/merge-input-timeline.py:57 | the sort keeps equal elements in their order |
| Timeline.ReadEvents | tools/merge-input-timeline.py:36-43 | the loop keeps the lines that carry a time and are no header, in file order |
| Timeline.LinesAreEvents | tools/merge-input-timeline.py:36-43 | lines are read one by one in order; a line is an event of its own time and file unless it begins `wall_epoch` and a tab or carries no time |
| Timeline.MergeTimelines | tools/merge-input-timeline.py:54-57 | the three files' events, appended in turn and sorted stably by time |
| Timeline.MergeSorts | tools/merge-input-timeline.py:54-57 | the timeline is a time-sorted permutation of all events |
| Timeline.MergeProjects | tools/merge-input-timeline.py:36-57 | restricted to one source it is the stable sort of that source alone, hence that file's own order if it was sorted |
| Timeline.TiesKeepSourceOrder | tools/merge-input-timeline.py:54-57 | at any one time the server's events come first, then the client's, then cgtap's, each in file order |
| MermaidRenderer.NodeIdsAreDistinct | tools/codegraph.py:785-788 | zero-padded node ids are equal iff the positions are, past 999 too, and hold no space |
| MermaidRenderer.NumberNodes | tools/codegraph.py:784-788 | the loop gives each component id the node of its last position |
| MermaidRenderer.RenderGroup | tools/codegraph.py:802-815 | one group's lines: none without components, else a subgraph around its components sorted by id |
| MermaidRenderer.RenderEdges | tools/codegraph.py:826-834 | the loop draws the edges whose ends are components, in order |
| MermaidRenderer.RenderMermaid | tools/codegraph.py:781-835 | the text is the diagram's lines: headers, groups, classes, edges |
| MermaidRenderer.EveryComponentIsDeclaredOnce | tools/codegraph.py:789-815 | each component is declared once, in the subgraph of its kind, and the subgraphs are balanced and do not nest |
| MermaidRenderer.NodeLinesShowTheirComponents | tools/codegraph.py:808-814 | every node line of the diagram carries the node number, the id and the targets of the component it declares |
| MermaidRenderer.EveryComponentIsClassedOnce | tools/codegraph.py:817-824 | the class lines style component after component, each exactly once and by its kind |
| MermaidRenderer.NodeOfRow | tools/codegraph.py:785-788 | with distinct ids component number i is node number i |
| MermaidRenderer.EveryEdgeIsDrawnIff | tools/codegraph.py:826-834 | no edge is skipped iff both ends of every edge are components, and then each has its own line, in order |
| MermaidRenderer.EdgeLinesReadDifferently | tools/codegraph.py:832-834 | edge lines between different pairs of nodes differ as text, whatever their captions |
| MermaidLaws.EveryBuiltEdgeIsDrawn | tools/codegraph.py:826-835 | for a built graph the skip branch is never taken: each component edge has exactly one line, between its own two nodes, and no two lines read alike |
| MermaidText.TextIsItsLines | tools/codegraph.py:777-835 | whatever characters ids and targets hold, the text splits at its line breaks into exactly the diagram's lines |
| MermaidText.NodeLineReadsBack | tools/codegraph.py:777-814 | the node and the caption of a node line can be read back from its text, and the caption holds no quote |
| MermaidWords.ComponentLines | tools/codegraph.py:777-824 | with distinct ids, the text has for component number i a line `n` and i in at least three digits, with its id and its targets, quotes made single and line breaks blank, and a line giving that node the style of its kind |
| MermaidWords.StylesAreDefined | tools/codegraph.py:793-799 | the diagram opens with its direction and one definition, with its colours, of each style that class lines use |
| MermaidWords.SubgraphSays | tools/codegraph.py:807-815 | a subgraph line is `g` and its number in at least two digits with its title, quotes made single and line breaks blank |
| MermaidWords.EdgeLineSays | tools/codegraph.py:826-834 | an edge between components i and j has a line from node i to node j labelled `include`, `link` or `include + link`, as it is there for one, the other or both |
| DaemonObjects.DaemonIpcServer.RegisterCommand | src/lib/deskflow/ipc/DaemonIpcServer.cpp:134-152 | an id of 1 to 64 word characters or hyphens that is not pending is registered; any other is refused with an error line |
| DaemonObjects.DaemonIpcServer.CompleteCommand | src/lib/deskflow/ipc/DaemonIpcServer.cpp:154-176 | the request is forgotten first, then answered if its client is still there, in the old or the new format, on one line |
| DaemonObjects.DaemonIpcServer.InvokeLater | src/apps/deskflow-daemon/DaemonApp.cpp:117-132 | the callback's first hop: dropped when the server is gone, else queued on its thread |
| DaemonObjects.DaemonIpcServer.DeliverNext | src/apps/deskflow-daemon/DaemonApp.cpp:125-130 | the second hop: the oldest queued invocation completes its request |
| DaemonObjects.MSWindowsWatchdog.ChangeConfig | src/lib/platform/MSWindowsWatchdog.cpp:380-428 | under the lock: the new command and process state, the callback kept, and those to call |
| DaemonObjects.MSWindowsWatchdog.SetConfig | src/lib/platform/MSWindowsWatchdog.cpp:380-436 | the superseded callback is called with a failure, then the immediate one with success |
| DaemonObjects.MSWindowsWatchdog.Turn | src/lib/platform/MSWindowsWatchdog.cpp:214-288 | one turn of the main loop, with the retry delays of failed starts |
| DaemonObjects.DaemonApp.SetConfigFile | src/apps/deskflow-daemon/DaemonApp.cpp:51-67 | an accepted path is stored and persisted together, a rejected one changes neither; both are answered |
| DaemonObjects.DaemonApp.ApplyWatchdogCommand | src/apps/deskflow-daemon/DaemonApp.cpp:69-134 | each failure is answered at once if someone asked; otherwise the command is built and its callback handed over |
| DaemonObjects.DaemonApp.ClearWatchdogCommand | src/apps/deskflow-daemon/DaemonApp.cpp:144-161 | the config path is cleared in both places, the command cleared, the request answered |
| DaemonObjects.DaemonApp.ClearSettings | src/apps/deskflow-daemon/DaemonApp.cpp:182-189 | the config path is cleared in both places and nothing else changes |
| DaemonObjects.DaemonApp.StartUp | src/apps/deskflow-daemon/DaemonApp.cpp:234-243 | a fresh watchdog, and the persisted config file applied without a request |
| DaemonObjects.DaemonApp.ProcessCommand | src/lib/deskflow/ipc/DaemonIpcServer.cpp:37-79 | each message runs its handler in between registration and answer |
| DaemonObjects.DaemonApp.ConfigFileMessage | src/lib/deskflow/ipc/DaemonIpcServer.cpp:101-132 | old and new message forms, missing ids and empty paths |
| DaemonObjects.DaemonApp.Perform | src/apps/deskflow-daemon/DaemonApp.cpp:44-209 | each step on the objects, whichever object it belongs to, is the state machine's step and keeps the invariant |
| DaemonObjects.DaemonApp.PerformAll | src/apps/deskflow-daemon/DaemonApp.cpp:44-209 | any number of steps on the objects is a run of the state machine |
| DaemonObjects.Serve | src/apps/deskflow-daemon/DaemonApp.cpp:211-247 | built, started up and taken through any steps, the objects are in the state the state machine reaches from start-up |
| DaemonLaws.ConfigKeepsRequests | src/lib/platform/MSWindowsWatchdog.cpp:380-436 | changing the process config loses no waiting request and repeats none: each is still waiting or called |
| DaemonLaws.TurnKeepsWatchdogOk | src/lib/platform/MSWindowsWatchdog.cpp:214-288 | a turn keeps the command and every waiting request, and a request waits only for a start that is coming |
| DaemonLaws.StepKeepsInv | src/apps/deskflow-daemon/DaemonApp.cpp:51-161 | every step keeps the daemon's invariant: accounts of requests, one place each, agreeing config paths, a sound watchdog, a command built for an accepted path |
| DaemonLaws.StartUpEstablishesInv | src/apps/deskflow-daemon/DaemonApp.cpp:234-243 | start-up establishes it, whatever was persisted |
| DaemonLaws.RunKeepsInv | src/apps/deskflow-daemon/DaemonApp.cpp:51-161 | so every run keeps it |
| DaemonLaws.RequestsAreConserved | src/apps/deskflow-daemon/DaemonApp.cpp:51-161 | over every run from start-up each registration is exactly one of pending, completed once, and abandoned with the server; and the config path in memory is the persisted one |
| DaemonAnswers.StepServes | src/apps/deskflow-daemon/DaemonApp.cpp:111-134 | while the server lives any step, whatever it is, completes a pending request or leaves it no further from its answer: its start is no more turns away, it never goes back to waiting, and its place in the queue only falls |
| DaemonAnswers.RequestAdvances | src/lib/platform/MSWindowsWatchdog.cpp:214-288 | over any interleaving each turn of the watchdog with no callback in flight and no start still to wait for brings a waiting start nearer |
| DaemonAnswers.QueueIsServed | src/apps/deskflow-daemon/DaemonApp.cpp:123-131 | the server's queue is first in, first out: over any interleaving, as many deliveries as its place complete a queued request |
| DaemonReplies.AnswersAreWritten | src/lib/deskflow/ipc/DaemonIpcServer.cpp:154-176 | over every run from start-up, a completed request's client was told or is gone; the answers owed to clients that were told stand in order among what was written, each at its own place; and the command results written are exactly those owed, with the registered client, id and command and the outcome |
| DaemonReplies.StepReplies | src/lib/deskflow/ipc/DaemonIpcServer.cpp:37-176 | every step keeps that account of what is owed and written |
| DaemonReplies.ResultIsOwed | src/lib/deskflow/ipc/DaemonIpcServer.cpp:163-174 | every command result written answers a completed request of the client it was written to |
| DaemonAnswers.EveryRequestIsCompleted | src/apps/deskflow-daemon/DaemonApp.cpp:111-161 | from any reachable state, over every interleaving in which the server lives, with two such turns, then a callback, then a delivery for each invocation queued by then: every request registered before is completed, and none twice |
| DaemonAnswers.EveryRequestIsAnswered | src/apps/deskflow-daemon/DaemonApp.cpp:111-161 | over the same interleavings, and unless its client has gone, the answer to each such request is written to that client |
| DaemonAnswers.QuietRunAnswers | src/apps/deskflow-daemon/DaemonApp.cpp:111-161 | such a run exists from every reachable state: left alone, two due turns, their callbacks and the deliveries leave nothing pending |
| DaemonAnswers.GoneStaysGone | src/lib/deskflow/ipc/DaemonIpcServer.cpp:154-161 | over any run the number of a connection that is gone is given to no other connection |
| DaemonRuns.DeadServersAnswerNothing | src/apps/deskflow-daemon/DaemonApp.cpp:114-130 | once the server is gone no step completes or writes anything, and callbacks are dropped |
| DaemonConfig.CommandsComeFromValidatedPaths | src/apps/deskflow-daemon/DaemonApp.cpp:69-109 | a step that gives the watchdog a new command is a start request whose config path validates in that same step, with a core mode, and the command is the one built from them |
| DaemonConfig.CommandHasOrigin | src/apps/deskflow-daemon/DaemonApp.cpp:69-109 | over any run, a command the watchdog did not have at its start was built by some admitted start request of the run, from the path that validated in that step |
| DaemonConfig.WhatRunsWasValidated | src/apps/deskflow-daemon/DaemonApp.cpp:69-161 | over every run from start-up, what the watchdog is set to run was built by start-up or by an admitted start request, from a path that validated in that very step; it never starts an empty command and no request waits without one |
| DaemonConfig.StopStops | src/apps/deskflow-daemon/DaemonApp.cpp:144-161 | an admitted stop request leaves no config path and no command |
| DaemonConfig.StoppedStays | src/apps/deskflow-daemon/DaemonApp.cpp:51-161 | a stopped daemon stays stopped over a step iff the step is no config request whose path is accepted, as its guards tell |
| DaemonConfig.StartIsRefused | src/apps/deskflow-daemon/DaemonApp.cpp:72-78 | a start request then is answered at once with a failure, is not pending afterwards, and leaves the watchdog as it was |
| DaemonConfig.StartAfterStopFails | src/apps/deskflow-daemon/DaemonApp.cpp:51-161 | after an accepted stop, over every further run in which no config path is accepted, nothing is configured, the command is empty, and every admitted start is refused |
| DaemonConfig.EventsTell | src/apps/deskflow-daemon/DaemonApp.cpp:51-189 | the guards of the handlers, read before a step, tell exactly what it does to the config path and to the command |
| DaemonConfig.RunIsFollowed | src/apps/deskflow-daemon/DaemonApp.cpp:51-189 | over every run the accepted starts, config paths, clearings and stops account for both |
| DaemonConfig.RunsItsConfigIff | src/apps/deskflow-daemon/DaemonApp.cpp:51-243 | over every run from start-up the command is empty or built for the config path iff no start was accepted since the last stop or the path of the last one is the one configured now |
| DaemonConfig.ClearingLeavesTheCommand | src/apps/deskflow-daemon/DaemonApp.cpp:182-189 | whatever valid path start-up ran, clearing the settings reaches a state with no config path, in memory or persisted, and its command still set to run |
| DaemonConfig.ReplacingLeavesTheCommand | src/apps/deskflow-daemon/DaemonApp.cpp:51-67 | so does accepting any other path, whatever characters it holds: the command still set to run is the old path's |
| DaemonConfig.ConfigRequestIs | src/lib/deskflow/ipc/DaemonIpcServer.cpp:109-119 | a config file message with a tab asks for the path after it under the id before it, and is an error if that id is empty; without a tab it is the old form, and all of it the path |
| DaemonWatchdog.OtherMessages | src/lib/deskflow/ipc/DaemonIpcServer.cpp:37-99 | log level, log path and clearing the settings are answered at once and leave requests and watchdog alone |
| DaemonModes.PathIsAcceptedIff | src/apps/deskflow-daemon/DaemonApp.cpp:163-180 | a config path is accepted iff it is not empty, does not begin with two slashes or two backslashes, and the file exists; otherwise its error says which |
| DaemonModes.StartLaunches | src/apps/deskflow-daemon/DaemonApp.cpp:85-109 | an admitted start with a usable config path makes the command the quoted core path, `server` for core mode 2 and `client` for core mode 1, `--settings` and the quoted config path |
| DaemonModes.OtherModesFail | src/apps/deskflow-daemon/DaemonApp.cpp:95-103 | in any other mode it is answered at once with a failure that carries the mode in decimal, and the watchdog is left as it was |
| DaemonModes.UnusablePathFails | src/apps/deskflow-daemon/DaemonApp.cpp:72-78 | without a usable config path it is answered at once with the reason, whatever the mode, and the watchdog is left as it was |
| DaemonModes.ConfigIsAnswered | src/apps/deskflow-daemon/DaemonApp.cpp:51-67 | a config file message, in the old form or the new, is answered at once: a usable path is stored and persisted, any other changes neither and its failure says why |
| DaemonModes.StartUpLaunches | src/apps/deskflow-daemon/DaemonApp.cpp:234-243 | start-up launches the core of the mode found with the persisted config if that is usable, and otherwise leaves the watchdog fresh |
| DaemonModes.NoWatchdogFails | src/apps/deskflow-daemon/DaemonApp.cpp:80-87 | without a watchdog a start with a usable path fails with a message that says so, and changes nothing else |
| DaemonModes.DetailStaysOnItsLine | src/lib/deskflow/ipc/DaemonIpcServer.cpp:167-172 | in a result, line breaks and tabs of the detail are blanks and every other character stands in its place |
| DaemonModes.WhatRunsWasLaunched | src/apps/deskflow-daemon/DaemonApp.cpp:69-243 | over every run from start-up, what the watchdog is set to run is the core of the mode found by start-up or by an admitted start of the run, with the config path usable then |
| DaemonWatchdog.NewConfiguration | src/lib/platform/MSWindowsWatchdog.cpp:380-436 | the request that waited is told that it was superseded, before anything else; the new one is told at once that its command runs, or waits, or goes with the command it would stop; what runs is stopped, what does not is started |
| DaemonWatchdog.StartTurn | src/lib/platform/MSWindowsWatchdog.cpp:241-259 | a turn with a start pending runs the command iff there is one and starting succeeds, takes the waiting request's callback with that result, and puts off the next try from the second failure in a row on |
| DaemonWatchdog.OtherTurns | src/lib/platform/MSWindowsWatchdog.cpp:223-275 | every other turn changes nothing but the process state: a changed session or an exit leads to another start, a stop to idleness without a command, a scheduled start waits until it is due |
| DaemonWatchdog.SessionChangeRestarts | src/lib/platform/MSWindowsWatchdog.cpp:223-275 | a running command whose session changed is running again after two turns of the loop, and whoever waited is told |
| DaemonWatchdog.RetriesBackOff | src/lib/platform/MSWindowsWatchdogRetryPolicy.h:14-22 | a first failed start is tried again at once; from the second on the wait is a power of two in seconds, from one up to thirty |
| DaemonStarts.SuccessfulStartsRan | src/apps/deskflow-daemon/DaemonApp.cpp:107-134 | over every run each start completed with success was accepted at some step, and at a later moment the watchdog was running the very command, with the elevation, asked for in that step |
| DaemonStarts.WrittenSuccessesRan | src/apps/deskflow-daemon/DaemonApp.cpp:107-134 | so each successful start result that was written went to the client that asked, and what it asked for had been running |

## Left out

- CMakeLaws.VariablesAreSequential: is stated for fragments without function or macro blocks, because a block may reach across the seam, and without a comment open at the seam, which would swallow the second's first line; the blocks themselves are modelled (`CMakeParser.StripBlocks`).
- VariableTemplates.ExpansionIsResolution: is stated for texts whose literals hold no `$`; on arbitrary text `ExpandVariables` and `OneRoundIsEnough` say what holds.
- RepoPaths.NormalizeIsIdempotent: is stated for relative paths, because it is false of rooted ones; `IdempotentIff` covers all.
- Characters: word characters, white space and case folding are the ASCII ones; line ends are those of `splitlines`.
- The tokenizer (`shlex`), time stamp parsing, the language and binary-suffix tables: parameters, with any behaviour.
- Git, reading and decoding files, JSON and README output, revision metadata, entry points, component descriptions.
- Sorted lists of targets, file edges, unresolved includes and dependency sources: kept as the sets they are sorted from; component and edge rows are lists.
- The inner loop over one file's declarations and links: its effect on the tables is one update of the sets and of the owners that were missing.
- Windows drive paths in includes: read as ordinary names, as the tool's pure POSIX paths do.
- Log levels and log files, which no request depends on; the log path's text.
- The build for other platforms, where starting and stopping processes is not implemented.
- A daemon without a server: the server is connected before the daemon runs.
- Launching, watching and ending processes: whether a start succeeds, is due, or the process is up are inputs of each turn.
- Shutting the watchdog down: its turns stop; a request that waits then keeps waiting.
- The time between a turn and its callback has no bound, but the watchdog's loop calls one callback before its next turn, as its single thread does.
- The regular expression for request ids also accepts an id followed by one line break; messages are single lines, so none arrives.
- The six-digit printing of merged time stamps; times are real numbers.
- The desktop application, the core process and the other scripts.
