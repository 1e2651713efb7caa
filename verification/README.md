# Verified models of TrinoHub's lexical engine, protocols and bookkeeping

TrinoHub manages Trino clusters: a Python control plane, and a web console written in one JavaScript file. This project
models the parts of it whose correctness is hardest to see from the code, in Dafny 4.11, and proves what they are for.
`dafny verify dfyconfig.toml` checks the whole project.

## What is modelled

**The SQL editor's lexical engine** (`web/app.js`). The console reads SQL in four places that were written separately:
a five-state scanner that splits statements (`SqlScanner`), a copy of it that finds brackets (`SqlBrackets`), the
regular expression of the highlighter and the one of the formatter (`SqlTokens`). Text is a sequence of characters; the
loops are methods proved against a forward automaton `StateAt`; the regular expressions are ordered alternatives, with
the backtracking of the quote alternatives modelled literally. The main results are that the readers agree exactly when
every quote and block comment is closed, that splitting meets a contract that only one list can meet, that highlighting
loses nothing and paints every character as it should (`SqlHighlight`, with a small HTML reader as the partner), that
replace-all is simultaneous substitution (`SqlSearch`), that no name can break out of a quoted identifier
(`SqlQuoting`), and exactly when restoring puts back what was taken out (`SqlProtect`, `SqlRestore`).

**The formatter** (`SqlLexemes` to `SqlTwice`). `Meaning` is the sequence of tokens without white space, keywords in
either case. The proof follows the chain of replacements on symbolic texts, in which a protected segment is a hole, and
shows that each step keeps the *shape* of a text (`SqlShape`, `SqlFormat`, `SqlUpcase`); `SqlFaithful` tells from the
shape when the holes are read back as what they stand for; `SqlMeaning` puts the chain together. The formatter does not
always keep the meaning: the newline behind a `--` comment can be lost, and a placeholder can be found where it was not
put. `SqlNextLine` reads off the text what is laid out on a new line, `SqlAlone` shows that the formatter neither makes
nor unmakes a stray placeholder, and `SqlStray` that one which is replaced always shows. `SqlComments` proves, for
every text, that the meaning is kept exactly when every placeholder stands alone in the source and every line comment
is followed by nothing or by such a phrase. `SqlTwice` proves that formatting such a text twice is formatting it once,
and which texts the formatter leaves as they are. `SqlRewrite` says what it writes, token by token, and `SqlLayout`
that its chain of layout replacements is one pass in which every gap is decided by what stands behind it, so that the
clean-up of line ends and empty lines never finds anything to do.

**Notebook runs** (`NotebookProtocol`, `NotebookRuns`, `NotebookSaves`, `NotebookPage`). Cells run as coroutines that
interleave at their awaits. The state machine has one action for every stretch of code between two awaits; an inductive
invariant covers all interleavings of runs, polls, errors, restores, deletions and reopened notebooks. `NotebookSaves`
is about the queries that runs save with their cells, and the order in which these runs started; `NotebookRuns` about
what the page shows at every point of a run. `NotebookPage` is the page as a class: the methods with the code of each
stretch update the runtimes in place and are proved against the steps; the methods of a valid page keep the invariant
and say who may write what.

**The email agent** (`EmailAgent`). The tool-calling loop is a class whose fields are the loop's variables, with a
trace of what happened. `Proper` says which events may follow which; the results hold of every proper trace, whatever
the model replies and whatever the tools return, and the loop produces proper traces only.

**Infrastructure bookkeeping**: security-group rules and their removal over an abstract EC2 (`SecurityGroups`), the
rendered gateway configuration, read back from its text, its route block found by the braces and run by its lines
(`TlsGateway`, `TlsText`), the schema migration over tables, columns and rows (`Migrations`), memory and cache-disk
sizes (`ClusterSizing`); and the CSV export against a reader for section 2 of RFC 4180 (`CsvExport`). `Options`,
`Printing` and `SqlText` hold what these modules share.

Where the code falls short of what is promised of it, the model keeps the code and states when the promise holds:

- `FormattingKeepsMeaning`: a line comment swallows what follows it unless that is nothing or one of the formatter's phrases,
  FROM, LEFT JOIN, AND and the like; `a--` followed by a line `1` is the smallest example that goes wrong. The only other
  texts whose meaning changes are those of the next item.
- `RestoredIffAlone`: restoring fails exactly for the texts in which some placeholder is found where it was not put;
  `RestoringCanFail` is one of them.
- `FormattedKeywordsAreUpper`: keywords are put in upper case, except those that a quote or comment touches without white
  space, as in `select'x'`: there the placeholder and the keyword are one word.
- `FormattingTwiceCanDiffer`: when a comment swallows the first line of a quote, the second formatting changes what the
  first one made; `FormattingLeaves` says of which texts it changes nothing.
- `MatchesCanLeaveTheText`: the matches of a search are places in the folded text, which can be longer than the text; they
  stay in the text when folding lengthens it by no more than the query.
- `SemicolonsAgreeIff`: in a text with an unclosed quote, splitter and highlighter agree on all semicolons exactly when the
  highlighter has every one behind the opening mark in some quote or comment.
- `StaleStatusShows`: a run that lost its token still writes the status once, after a poll (web/app.js:9958-9959).
- `SavesAreInOrderIff`: a run of a notebook that was reopened meanwhile can save its older query over a newer run's
  (web/app.js:9637, 9971-9973); this happens exactly when it lands after a run of its cell that started later, and then
  that run is on a later runtime; never in a session that closes each notebook before the next (`ClosedFirstSavesInOrder`).
- `AuthorizedMeansAllowed`: a permission of which EC2 has a part already is reported as authorized, but the other part is
  not granted.
- `SettingUpTwice`: if the way of letting the control plane in changes between two set-ups, the clean-up leaves rules behind.
- `UnmappedSettingsAreReset`: a legacy settings row loses every value that is not mapped, the base domain, single sign-on,
  session length, notification, assistant, result-cache and email settings among them, unless it already held the default.
- `QueryMemoryFits`: with a heap of 2 GiB the sum of the two settings equals the heap, where the comment in
  trinohub/aws_checks.py:183-195 promises that it stays strictly below.
- `UsageIsWithinBudget`: with more than 90 cached catalogs the disk budget of 90 percent is exceeded.

Calls to AWS, to the model, to the tools and to the server are parameters: functions that may depend on everything that
happened before, or actions that may come at any time.

## Model

| member | source | states |
|---|---|---|
| `SqlScanner.SplitSqlStatements` | web/app.js:6602-6659 | the splitter's loops return the list that the forward automaton gives |
| `SqlScanner.SplitCharacterized` | web/app.js:6589-6659 | a list is the result if and only if it consists of trimmed, non-empty slices in order, without a code-level semicolon, neighbours apart by one, and nothing else but white space and such semicolons outside them |
| `SqlScanner.SplitIsOrdered` | web/app.js:6602-6659 | statements are ordered and disjoint, and each is its slice of the source |
| `SqlScanner.SplitAgain` | web/app.js:6602-6659 | splitting any returned statement yields exactly that statement |
| `SqlScanner.ScanSlice` | web/app.js:6608-6654 | scanning a slice that starts in code agrees with scanning the whole text |
| `SqlScanner.TrimStatement` | web/app.js:6589-6600 | the trimmed piece with its place in the source; none for white space |
| `SqlScanner.CurrentSqlStatement` | web/app.js:6661-6671 | the first statement that touches the cursor, else the nearest one before it, else the first |
| `SqlBrackets.SqlBracketPositions` | web/app.js:6088-6138 | the second scanner returns the brackets the automaton sees as code |
| `SqlBrackets.PositionsAreBrackets` | web/app.js:6088-6138 | every position is a bracket in code, in order |
| `SqlBrackets.PositionsAreComplete` | web/app.js:6088-6138 | no bracket in code is missed, so finder and splitter classify characters alike |
| `SqlBrackets.FindSqlBracketMatch` | web/app.js:6140-6174 | the depth counter returns the pair that encloses a balanced stretch, the lone bracket, or nothing |
| `SqlBrackets.PairedUnique` | web/app.js:6140-6174 | a bracket has at most one partner |
| `SqlBrackets.MatchIsSymmetric` | web/app.js:6140-6174 | asking at either bracket gives the same pair, and a pair comes from nowhere else |
| `SqlBrackets.PairsDoNotCross` | web/app.js:6140-6174 | two pairs of one kind are nested or disjoint |
| `SqlBrackets.OnlyCodeIsMatched` | web/app.js:6088-6174 | no bracket inside a quote or comment is paired |
| `SqlBrackets.BracketsAre` | web/app.js:6088-6144 | the six characters are the brackets, and they pair by kind |
| `SqlBrackets.CaretAsks` | web/app.js:6140-6174 | the bracket before the caret is asked first, then the one behind it; it is returned alone when no bracket pairs with it, and nothing when there is none |
| `SqlBrackets.PairEncloses` | web/app.js:6140-6174 | a bracket inside a pair of its kind has no partner outside it |
| `SqlTokens.LexersAgree` | web/app.js:6602-6659 | the scanner's quotes and comments are the regular expression's if and only if the scan ends outside all of them |
| `SqlTokens.LexersAgreeUntilUnclosed` | web/app.js:6031-6032 | otherwise they agree up to the one that is never closed |
| `SqlTokens.ProtectedAreTokens` | web/app.js:6350-6358 | the formatter protects exactly the highlighter's comment, string and quoted-identifier tokens |
| `SqlTokens.SemicolonsAgree` | web/app.js:6031-6032 | in a text that ends in code a semicolon splits if and only if it is a token of its own |
| `SqlTokens.SemicolonIsToken` | web/app.js:6031-6032 | a semicolon is a token of its own if and only if the expression has it in no quote or comment |
| `SqlTokens.SemicolonIsCode` | web/app.js:6602-6659 | a semicolon splits if and only if the scanner has it in no quote or comment |
| `SqlTokens.SemicolonsAgreeIff` | web/app.js:6031-6032 | in a text that does not end in code, the two agree on all semicolons if and only if the expression has every one behind the unclosed mark in a quote or comment |
| `SqlTokens.SemicolonsDisagreeWhenUnclosed` | web/app.js:6031-6032 | a text with an unclosed quote in which they disagree |
| `SqlTokens.TokenIs` | web/app.js:6031-6032 | where no quote or comment starts, the token is the longest number that stands by itself (digits, or digits, a point and digits), else a whole word that begins with a letter, else a whole stretch of white space, else one character |
| `SqlTokens.TokensCharacterized` | web/app.js:6031-6032 | a list of spans is that of the tokens if and only if it covers the text and each span is such a token |
| `SqlText.WhiteSpaceIs` | web/app.js:6031-6032 | the 25 characters of white space, for the expressions and for trimming |
| `SqlTokens.TokenClassIs` | web/app.js:6034-6045 | the class of a token, told from its first characters and the two lists |
| `SqlHighlight.EscapeByCharacter` | web/app.js:238-245 | the five replacements in a row are one replacement per character |
| `SqlHighlight.HighlightSql` | web/app.js:6229-6239 | the loop over the tokens gives the specified text |
| `SqlHighlight.HighlightingIsLossless` | web/app.js:6200-6239 | read as HTML, the result is the source, character by character with its classes, and at most one space |
| `SqlHighlight.PaintedCharacter` | web/app.js:6200-6227 | each character has the class of its own token and of every decoration over it, for any overlapping decorations |
| `SqlHighlight.PaintedByToken` | web/app.js:6200-6239 | so a character is painted by the token it stands in, whichever list of tokens covers the text |
| `SqlHighlight.OwnClass` | web/app.js:6034-6045 | the name of the class that each kind of token has, and none for the others |
| `SqlHighlight.CutsAre` | web/app.js:6201-6210 | a token is cut at its ends and where a decoration that meets it begins or ends inside it, and nowhere else |
| `SqlHighlight.DecorationsAdd` | web/app.js:6214-6223 | a decoration adds its class behind the others, inside its range and nowhere else |
| `SqlSearch.FindSqlSearchMatches` | web/app.js:6047-6058 | the loop returns the greedy matches of the folded query in the folded text, each as long as the query, for any case fold |
| `SqlSearch.MatchesAreOrdered` | web/app.js:6047-6058 | matches are ordered, disjoint and in the text when folding lengthens it by no more than the query |
| `SqlSearch.MatchesOccur` | web/app.js:6047-6058 | the folded query stands at every match in the folded text |
| `SqlSearch.MatchedTextIsQuery` | web/app.js:6047-6058 | under a fold of characters in place the text at every match is the query, up to case |
| `SqlSearch.MatchesCanLeaveTheText` | web/app.js:6050-6055 | a text whose folded form is longer, with a match outside it |
| `SqlSearch.MatchesAreGreedy` | web/app.js:6047-6058 | every occurrence starts inside a match |
| `SqlSearch.ReplaceAllSqlMatches` | web/app.js:6330-6348 | editing last to first is simultaneous substitution |
| `SqlSearch.SubstituteLength` | web/app.js:6330-6348 | the result's length is the text's plus the matches times the difference |
| `SqlSearch.SubstituteSame` | web/app.js:6330-6348 | replacing each match by what was there changes nothing |
| `SqlSearch.ReplaceAllSearched` | web/app.js:6330-6348 | all of this holds of the search's own matches, for any replacement, when folding lengthens the text by no more than the query |
| `SqlQuoting.UnquoteQuoted` | web/app.js:6721-6727 | unquoting a quoted name gives the name, whatever it holds |
| `SqlQuoting.SnippetIsOneStatement` | web/app.js:8993-9004 | an inserted snippet is one statement, for all catalog, schema and table names |
| `SqlQuoting.SnippetNamesAreTokens` | web/app.js:8664-8670 | each of the three names is one quoted-identifier token and reads back as the name |
| `SqlSnippets.DescribeSnippetSays` | web/app.js:8998-8999 | the snippet's tokens: DESCRIBE, the three names with points between them, a semicolon |
| `SqlSnippets.ShowCreateSnippetSays` | web/app.js:9000-9001 | SHOW CREATE TABLE, the three names, a semicolon |
| `SqlSnippets.SelectSnippetSays` | web/app.js:8996-8997 | SELECT, a star, FROM, the three names, LIMIT 10, a semicolon |
| `SqlProtect.RestoreStep` | web/app.js:6360-6362 | restoring one index replaces its own placeholders and nothing else |
| `SqlRestore.RestoredIffAlone` | web/app.js:6350-6362 | for every text: restoring gives the source back if and only if placeholder n is neither in the source before segment n nor in the protected text behind it |
| `SqlRestore.RestoredFromHole` | web/app.js:6360-6362 | the same from any segment on, with the text before it restored |
| `SqlRestore.LostForGood` | web/app.js:6360-6362 | once a stray placeholder is replaced, no later step gives the source back |
| `SqlRestore.NoWordStandsAlone` | web/app.js:6350-6362 | texts without the word meet the condition |
| `SqlProtectExample.RestoringCanFail` | web/app.js:6350-6362 | a text with the word for which it does not |
| `SqlFormat.LayoutKeepsMarks` | web/app.js:6371-6381 | the layout replacements move white space only, and none that keeps tokens apart is lost |
| `SqlLayout.ClausesByName` | web/app.js:6373 | a clause begins where one of the ten phrases stands and no word character behind it |
| `SqlLayout.JoinsByName` | web/app.js:6374 | a join where JOIN stands, alone or behind one of the five sides and white space |
| `SqlLayout.LogicByName` | web/app.js:6375 | and AND or OR where these words stand |
| `SqlLayout.PhrasesAreKeywords` | web/app.js:5953-6013 | every word of a phrase is in the list of keywords, so that phrases are found whatever their case in the source |
| `SqlLayout.PassesAreOne` | web/app.js:6373-6375 | the three line-break replacements in a row are one pass over the gaps: a line break in front of a clause or a join, one with two spaces in front of AND and OR, and no change in front of anything else |
| `SqlLayout.LayoutIsOnePass` | web/app.js:6371-6382 | behind the separators that is the whole layout but for trimming: the clean-up of line ends and of empty lines finds nothing to do |
| `SqlLayout.LaidOutInOnePass` | web/app.js:6364-6382 | so the protected text is laid out as its marks are printed, line breaks decided by what stands behind each gap, and the ends trimmed |
| `SqlUpcase.UpcaseRendered` | web/app.js:6368-6369 | upper-casing the protected text leaves the placeholders alone |
| `SqlUpcase.UpcaseSaysSame` | web/app.js:6368-6369 | upper-casing changes the case of keywords and nothing else that the text says |
| `SqlRewrite.RunsAreUpcased` | web/app.js:6368-6369 | of every whole run of word characters: in upper case if its lower case is in the list of keywords, else as it was |
| `SqlRewrite.OthersStay` | web/app.js:6368-6369 | every other character stays |
| `SqlCommute.UpcaseCollapse` | web/app.js:6366-6369 | upper-casing before or after collapsing white space is the same |
| `SqlCommute.UpcaseTrim` | web/app.js:6366-6369 | upper-casing before or after trimming is the same |
| `SqlShape.LexShape` | web/app.js:6031-6032 | what a text says depends on its shape alone when its quotes and comments are read whole |
| `SqlFaithful.FaithfulByShape` | web/app.js:6031-6032 | they are read whole if and only if the shape allows it and each line comment ends at a newline |
| `SqlLift.Lifted` | web/app.js:6371-6382 | a text of the same shape is the same symbols with other white space |
| `SqlAlone.AbsentInWords` | web/app.js:6360-6362 | a placeholder is found in a text if and only if it is found in one of its runs of more than nine word characters |
| `SqlAlone.UpcaseAlone` | web/app.js:6368-6369 | upper-casing keywords neither makes nor unmakes a stray placeholder, before or behind any hole |
| `SqlAlone.ShapeAlone` | web/app.js:6371-6381 | nor do replacements that move white space only |
| `SqlMeaning.LaidOutAlone` | web/app.js:6364-6383 | so the placeholders stand alone in the laid-out text if and only if they do in the source |
| `SqlMeaning.FormatIsRestored` | web/app.js:6364-6383 | the formatted text is the laid-out symbols with every segment verbatim if and only if every placeholder stands alone in the source; otherwise the two part at a mark and an underscore |
| `SqlStray.ClashSays` | web/app.js:6031-6032 | a text that parts from the symbols at a mark and an underscore has other tokens, even where comments swallow lines |
| `SqlNextLine.StartsLineBySyntax` | web/app.js:6371-6381 | behind white space, the next thing is laid out on a new line if and only if it is one of the formatter's phrases, or there is none |
| `SqlComments.StrayPlaceholderShows` | web/app.js:6360-6383 | a stray placeholder that is replaced always changes the meaning |
| `SqlComments.FormattingKeepsMeaning` | web/app.js:6364-6383 | for every text: formatting keeps the meaning if and only if every placeholder stands alone in the source and every line comment is followed by nothing or, in upper case, by one of the formatter's phrases |
| `SqlComments.FormattingPlainText` | web/app.js:6364-6383 | so for every text without the placeholder word |
| `SqlComments.FormattingWithoutLineComments` | web/app.js:6364-6383 | without line comments the meaning is kept if and only if every placeholder stands alone |
| `SqlRewrite.FormattedTokens` | web/app.js:6364-6383 | when the meaning is kept, the tokens of the result are those of the source in order, keywords in upper case unless a quote or comment touches them, and all others as they were |
| `SqlRewrite.FormattedKeywordsAreUpper` | web/app.js:6368-6369 | every keyword token of the result is in upper case if and only if those that a quote or comment touches were so in the source |
| `SqlRewrite.KeywordsCanStayLower` | web/app.js:6368-6369 | a text with a keyword that stays in lower case |
| `SqlTwice.PrintsMarks` | web/app.js:6371-6372 | what the separator replacements make of a text is told by its marks |
| `SqlTwice.LaidOutTwice` | web/app.js:6366-6381 | the whole chain changes nothing in what it has laid out |
| `SqlTwice.SymbolsOfFaithful` | web/app.js:6350-6358 | a text that is read hole by hole gives its symbols and segments back when it is protected again |
| `SqlTwice.FormattingLeaves` | web/app.js:6364-6383 | the formatter leaves a text as it is if and only if every placeholder stands alone in it and its protected text is laid out |
| `SqlTwice.FormattingTwice` | web/app.js:6364-6383 | formatting twice is formatting once if placeholders stand alone and comments swallow nothing, and in general if and only if the formatted text is one that is left as it is |
| `SqlTwiceExample.FormattingTwiceCanDiffer` | web/app.js:6364-6383 | a text on which the two differ |
| `SqlTwice.FormattingPlainTextTwice` | web/app.js:6364-6383 | so for every text without the placeholder word and without line comments |
| `SqlComments.FormattingCanSwallow` | web/app.js:6364-6383 | a text whose comment swallows the next line |
| `NotebookProtocol.NextKeeps` | web/app.js:9631-9689 | every step of every coroutine, and of opening, closing and deleting, keeps the invariant |
| `NotebookProtocol.AlwaysInv` | web/app.js:9917-9987 | so does every interleaving |
| `NotebookProtocol.OnlyTheOwnerWrites` | web/app.js:9935-9986 | result, running, error and active query change only at a run's start, by the run in flight that holds the token, or by a restore with the token; tokens never go back |
| `NotebookProtocol.LandingsRecordResults` | web/app.js:9963-9967 | a result changes only by landing, and what lands is the terminal query the step brought |
| `NotebookProtocol.ResultsLandInOrder` | web/app.js:9655-9677 | in every session run results land in strictly increasing token order and a restored one never after a run's |
| `NotebookProtocol.RunningMeansOneRun` | web/app.js:9935-9986 | in every session an open cell is running if and only if a run in flight holds its token, and there is one such run |
| `NotebookProtocol.AlwaysTidy` | web/app.js:9935-9986 | in every session an error is shown only when nothing runs and a query is active only while something does |
| `NotebookProtocol.FailureIsShown` | web/app.js:9976-9986 | a failure of the run that holds the token is shown, keeps the last result and ends the running |
| `NotebookProtocol.ClosingSilences` | web/app.js:9679-9689 | closing the notebook or deleting the cell takes the runtime away from everyone |
| `NotebookProtocol.SilenceLasts` | web/app.js:9863-9880 | and nothing that happens later changes its guarded fields |
| `NotebookProtocol.StatusHasOneMoreWriter` | web/app.js:9956-9959 | the status is written by the same steps and by a stale run's poll, and then it is the polled status |
| `NotebookProtocol.StaleStatusShows` | web/app.js:9956-9959 | a session in which that happens |
| `NotebookRuns.RunLands` | web/app.js:9917-9987 | a run that nothing disturbs polls for as long as its query is not finished, failed or cancelled, whatever it is told and however often; then the page is as before but for the result shown, nothing running, one landing and, with a notebook open, one save |
| `NotebookRuns.SubmissionIsShown` | web/app.js:9942-9954 | what the cell shows when the submission is answered |
| `NotebookRuns.PollIsShown` | web/app.js:9954-9967 | and after each second and each poll |
| `NotebookRuns.RunFails` | web/app.js:9976-9986 | a failed request ends the run with its message, and the last result stays |
| `NotebookRuns.LostRunsReturn` | web/app.js:9946-9963 | a run without its token returns at its next step and changes nothing, but that a poll shows its status |
| `NotebookRuns.RestoreLands` | web/app.js:9655-9674 | an idle cell without a result gets the one that is found for it, when that is done |
| `NotebookRuns.NoRestore` | web/app.js:9659-9661 | no restore starts on any other cell |
| `NotebookRuns.LateRestoresWriteNothing` | web/app.js:9664-9665 | a restore that comes back too late writes nothing |
| `NotebookRuns.OpeningShowsReadyCells` | web/app.js:9631-9639 | opening shows the cells of the notebook, each ready, and changes nothing else that was on the page |
| `NotebookRuns.ClosingShowsNothing` | web/app.js:9679-9689 | closing, or deleting a cell, takes the cells off the page and moves on their tokens and no other |
| `NotebookPage.Notebooks.AddRuntime` | web/app.js:9691-9708 | a new runtime object for a cell without one |
| `NotebookPage.Notebooks.TakeCells` | web/app.js:9634-9639 | opening drops the runtimes without moving their tokens and makes new ones |
| `NotebookPage.Notebooks.Bump` | web/app.js:9681-9683 | the token of one runtime moves on |
| `NotebookPage.Notebooks.Abort` | web/app.js:9681-9683 | the loop that moves the tokens on, each once |
| `NotebookPage.Notebooks.Clear` | web/app.js:9679-9689 | closing moves every open runtime's token on and drops them |
| `NotebookPage.Notebooks.Drop` | web/app.js:9870-9874 | deleting moves the cell's token on and drops its runtime |
| `NotebookPage.Notebooks.Begin` | web/app.js:9935-9938 | a run draws the next token and takes the runtime over |
| `NotebookPage.Notebooks.TakeSubmission` | web/app.js:9946-9951 | the submission's answer, up to the next await |
| `NotebookPage.Notebooks.TakeSecond` | web/app.js:9955-9957 | the check of the token after the delay |
| `NotebookPage.Notebooks.TakePoll` | web/app.js:9957-9962 | the poll's answer sets the status before the token is checked |
| `NotebookPage.Notebooks.WaitOrFinish` | web/app.js:9954-9973 | the loop's head and what follows the loop |
| `NotebookPage.Notebooks.Land` | web/app.js:9964-9967 | the writes of a run that has its token |
| `NotebookPage.Notebooks.SaveQuery` | web/app.js:9971-9973 | the request by which the cell remembers the query |
| `NotebookPage.Notebooks.TakeFailure` | web/app.js:9976-9986 | a failed request ends the run, and the running state if the run has the token |
| `NotebookPage.Notebooks.BeginRestoring` | web/app.js:9659-9663 | a restore starts only on a runtime with no result that is not running |
| `NotebookPage.Notebooks.TakeRestored` | web/app.js:9664-9668 | it writes only in the same notebook, with the same token, a terminal query |
| `NotebookPage.Notebooks.TakeNothing` | web/app.js:9672-9674 | a restore that is not answered writes nothing |
| `NotebookPage.Notebooks.InitCellRuntime` | web/app.js:9691-9708 | on a valid page: a new runtime changes no other and keeps the page valid |
| `NotebookPage.Notebooks.OpenNotebook` | web/app.js:9631-9639 | on a valid page: opening writes to no runtime there is |
| `NotebookPage.Notebooks.CloseNotebook` | web/app.js:9679-9689 | on a valid page: closing leaves nobody who may write to the runtimes that were open |
| `NotebookPage.Notebooks.DeleteNotebookCell` | web/app.js:9863-9880 | on a valid page: deleting leaves nobody who may write to the cell's runtime |
| `NotebookPage.Notebooks.RunCell` | web/app.js:9917-9945 | on a valid page: the cell runs, shows no error, and its new run is the one that holds the token |
| `NotebookPage.Notebooks.SubmissionAnswered` | web/app.js:9942-9951 | on a valid page: only the run that holds the token writes guarded fields |
| `NotebookPage.Notebooks.SecondPassed` | web/app.js:9955-9957 | on a valid page: nobody's guarded fields change |
| `NotebookPage.Notebooks.PollAnswered` | web/app.js:9957-9967 | on a valid page: only the run that holds the token writes guarded fields |
| `NotebookPage.Notebooks.RunFailed` | web/app.js:9976-9986 | on a valid page: the failure is shown exactly by the run that holds the token, and the last result stays |
| `NotebookPage.Notebooks.RestoreCell` | web/app.js:9655-9663 | on a valid page: nobody's guarded fields change |
| `NotebookPage.Notebooks.RestoreAnswered` | web/app.js:9663-9668 | on a valid page: only a restore with the token writes, and nothing but the result |
| `NotebookPage.Notebooks.RestoreUnanswered` | web/app.js:9672-9674 | on a valid page: nobody's guarded fields change |
| `NotebookPage.Notebooks.RunningCellsHaveOneRun` | web/app.js:9935-9986 | on a valid page an open cell is running if and only if a run in flight holds its token, and there is one such run |
| `NotebookSaves.OrderByStep` | web/app.js:9971-9973 | a step keeps the start order of a cell's saves if and only if it does not land a run, with a notebook open, after a later run of the cell has saved |
| `NotebookSaves.LaterRunIsOnLaterRuntime` | web/app.js:9935-9938 | of two runs of a cell, one with its token and one that has saved, the second started later if and only if it is on a later runtime |
| `NotebookSaves.LateRunsAreDropped` | web/app.js:9637-9638 | a run that saves late has the token of a runtime which no open cell has any more, and the run that saved before it is on a later one |
| `NotebookSaves.SavesAreInOrderIff` | web/app.js:9917-9987 | in every session a cell's queries are saved in the order in which their runs started if and only if none is saved late |
| `NotebookSaves.ClosedFirstSavesInOrder` | web/app.js:9679-9689 | a session that never opens a notebook while cells are open saves every cell's queries in start order |
| `NotebookSaves.OlderQueryCanBeSaved` | web/app.js:9631-9639 | a session in which one is |
| `EmailAgent.RunAgent` | trinohub/email_agent.py:265-345 | the loop's trace is proper and complete, the messages are its transcript, and the outcome is its summary: the path is freeform if and only if a run_query succeeded, template if and only if none did but a template run |
| `EmailAgent.Agent.Ask` | trinohub/email_agent.py:285-291 | one chat on the transcript so far |
| `EmailAgent.Agent.Decide` | trinohub/email_agent.py:293-334 | one call is refused, or executed and accounted for |
| `EmailAgent.Agent.Handle` | trinohub/email_agent.py:292-338 | and answered in the messages by exactly one tool message |
| `EmailAgent.LockHolds` | trinohub/email_agent.py:304-311 | run_query is executed only after a search and a listing of templates have returned |
| `EmailAgent.OnlyTheLockRefuses` | trinohub/email_agent.py:302-313 | a call is executed if and only if its arguments are an object and, for run_query, the lock is open |
| `EmailAgent.FreeformWasUnlocked` | trinohub/email_agent.py:343-344 | an answer is called freeform only when a run_query succeeded, and then a search and a listing of templates returned before it |
| `EmailAgent.StepsAreBounded` | trinohub/email_agent.py:285-286 | there are at most max_steps chats |
| `EmailAgent.CallsAreConserved` | trinohub/email_agent.py:291-301 | the calls asked for are the calls handled, in order, and those pending |
| `EmailAgent.TranscriptIsComplete` | trinohub/email_agent.py:291-338 | whenever the model is asked, every message with k calls is followed by their k answers in order, each of them what the event that handled the call brought, printed in full up to 20000 characters and cut off with a mark beyond |
| `EmailAgent.ChatsOpenWith` | trinohub/email_agent.py:278-280 | every chat starts with the system prompt, the history in order and the question |
| `EmailAgent.RefusalsSayWhy` | trinohub/email_agent.py:302-308 | a call is refused with one of two messages |
| `EmailAgent.WhatCounts` | trinohub/email_agent.py:301-334 | what each call adds to the account: its name, the query's id, the template that ran, the first five products |
| `EmailAgent.NamesOfProducts` | trinohub/email_agent.py:318-322 | products are named in order, without those that have no name |
| `EmailAgent.CollectInOrder` | trinohub/email_agent.py:301-334 | the lists are made up event by event |
| `EmailAgent.OutcomeMeans` | trinohub/email_agent.py:340-344 | the path by which tools worked, and the answer by the last reply |
| `EmailAgent.DistinctIsFirstSeen` | trinohub/email_agent.py:331-342 | templates and products are listed once, in first-seen order |
| `EmailAgent.DistinctProducts` | trinohub/email_agent.py:342-342 | the removal of duplicates |
| `EmailAgent.AnswerOf` | trinohub/email_agent.py:340-341 | the answer is never empty |
| `EmailAgent.WhiteSpaceIs` | trinohub/email_agent.py:289 | the 29 characters that Python strips |
| `EmailAgent.Strip` | trinohub/email_agent.py:289-289 | the stripped content is empty exactly for white space, and has none at its ends |
| `EmailAgent.StripIsMiddle` | trinohub/email_agent.py:289-289 | what is stripped is white space at the ends, and nothing else |
| `SecurityGroups.EnsureManagedSecurityGroup` | trinohub/aws_checks.py:452-514 | the rules and the returned metadata after a set-up, or no change when the own rule is refused |
| `SecurityGroups.AuthorizeControlPlaneIngress` | trinohub/aws_checks.py:516-573 | in by its groups, else by its address, else not at all |
| `SecurityGroups.AuthorizeNodesToControlPlane` | trinohub/aws_checks.py:575-627 | the loop adds the rule of every target that is not refused and files the targets |
| `SecurityGroups.CleanupManagedSecurityGroupRules` | trinohub/aws_checks.py:1847-1933 | every named rule that is not refused is gone, and every revocation is filed once, in order, by how it ended: revoked, missing when the rules do not hold it or the service says by one of three codes that it is gone, else failed |
| `SecurityGroups.WhatIsGranted` | trinohub/aws_checks.py:452-627 | rule by rule what a set-up adds and what it says of the control plane: by its groups on port 8080, else by its address, else not at all; the targets that do not refuse on port 8000 |
| `SecurityGroups.WhatIsToldOfTargets` | trinohub/aws_checks.py:575-627 | what it says of the targets |
| `SecurityGroups.OneMoreTargetIsFiled` | trinohub/aws_checks.py:590-620 | target by target, which refuse, and which had the rule when their turn came |
| `SecurityGroups.WhatIsRevoked` | trinohub/aws_checks.py:1870-1925 | what a clean-up asks to remove, in order, with the defaults for what the metadata does not say |
| `SecurityGroups.WaysAreRevoked` | trinohub/aws_checks.py:1887-1912 | for the control plane's way in |
| `SecurityGroups.RevokedInOrder` | trinohub/aws_checks.py:1912-1925 | for groups and targets one after the other, without those that have no name |
| `SecurityGroups.CleanupUndoesEnsure` | trinohub/aws_checks.py:1847-1933 | with nothing failed, set-up and clean-up give the original rules back if and only if none of the named ones was among them |
| `SecurityGroups.FreshGroupsAreRestored` | trinohub/aws_checks.py:1847-1933 | so always for a group that no rule mentions, whichever branch and failures the set-up had |
| `SecurityGroups.EnsureIsIdempotent` | trinohub/aws_checks.py:452-514 | the same set-up again changes no rule |
| `SecurityGroups.SettingUpTwice` | trinohub/aws_checks.py:1887-1912 | after two set-ups with different refusals the clean-up restores the rules if and only if the control plane came in the same way, or the first time not at all |
| `SecurityGroups.AuthorizedMeansAllowed` | trinohub/aws_checks.py:527-553 | "authorized" by groups means all groups get in if and only if all or none could before |
| `TlsGateway.BuildCaddyfile` | trinohub/tls_gateway.py:65-105 | the loops give the preamble, the route block and the text |
| `TlsGateway.BlockMeansHostMap` | trinohub/tls_gateway.py:90-102 | run in order, the lines answer 403, the host's upstream, the control plane or 503 as the host map says, for every client and host |
| `TlsText.TextIsReadBack` | trinohub/tls_gateway.py:105-105 | the text of lines whose words are without blanks or quoted whole is read back as these lines |
| `TlsText.TextMeansHostMap` | trinohub/tls_gateway.py:43-105 | for inputs in one word, the emitted text, read back, its route block found by the braces and run, means the host map |
| `TlsText.ConfigurationIsRead` | trinohub/tls_gateway.py:65-90 | read by its braces, the rest of the configuration says where the administration listens, which versions are served, who is asked before a certificate is made, and which sites there are |
| `TlsGateway.SortedIsSorted` | trinohub/tls_gateway.py:94-94 | the routes in the order of their hosts, none lost |
| `TlsGateway.MatchersAreDistinct` | trinohub/tls_gateway.py:91-102 | no two lines define the same matcher |
| `TlsGateway.RoutedHostsAreCovered` | trinohub/tls_gateway.py:63-68 | a routed host has a site address if and only if it is the base domain, one label under it, or outside it |
| `Migrations.Database.ApplyMigrations` | trinohub/database.py:678-692 | the migration fails if and only if a statement of it must, the index and the references to clusters included, and else gives the migrated tables |
| `Migrations.SettingsCanMoveIff` | trinohub/database.py:722-752 | a legacy settings row can be moved if and only if no left-over table is in the way, the columns that are read are there, and the new row has no null where the new table forbids one |
| `Migrations.OthersCanMoveIff` | trinohub/database.py:678-763 | the resources if and only if their columns are there and every copied row names a cluster there is, or none; and what planned columns and the index need |
| `Migrations.SettingsRowIsFirst` | trinohub/database.py:723-723 | the row that is moved is the one with the id 1 |
| `Migrations.Database.MigrateSetupSettings` | trinohub/database.py:722-752 | rename, create, insert and drop replace the settings table |
| `Migrations.Database.MigrateAwsResources` | trinohub/database.py:754-763 | the resources are copied in order, clashing ones ignored, and the old table dropped |
| `Migrations.Database.AddColumns` | trinohub/database.py:680-684 | the missing columns of one table are added |
| `Migrations.MigratingIsIdempotent` | trinohub/database.py:678-763 | one migration gives every column, and a second one can be made and changes nothing |
| `Migrations.MigrationsAreSane` | trinohub/database.py:547-628 | the plan of the repository meets what this needs |
| `Migrations.SettingsAreCarriedOver` | trinohub/database.py:722-751 | every mapped value of the legacy settings row is where the current schema has it |
| `Migrations.SettingsAreRebuilt` | trinohub/database.py:722-751 | for every column and every plan: whether the migrated settings have it, and what it holds, whatever the legacy row held |
| `Migrations.UnmappedSettingsAreReset` | trinohub/database.py:725-751 | the whole row is conserved if and only if every column that is not mapped held what the migration gives everyone |
| `Migrations.PlannedSettingsAreLost` | trinohub/database.py:585-606 | for the repository's plan that is the planned default of each settings column |
| `Migrations.BaseDomainIsReset` | trinohub/database.py:735-751 | so the base domain survives if and only if it was empty |
| `Migrations.OtherTablesKeepTheirRows` | trinohub/database.py:678-684 | every other table keeps its columns, rows and values |
| `Migrations.AddedColumnsHaveDefaults` | trinohub/database.py:680-684 | an added column has its default in every row |
| `Migrations.ResourcesAreCarriedOver` | trinohub/database.py:754-763 | the resources there stay in front, each old one that the constraints let in behind those before it follows with all its values, and all do if and only if each fits in |
| `Migrations.ResourcesKeepTheirValues` | trinohub/database.py:754-763 | the place of every old resource in the migrated table, where it has its id, cluster, kind, name, region, metadata and time, and the provider aws |
| `Migrations.CopyAllKeepsKeys` | trinohub/database.py:755-762 | no row is made up and none clashes with one before it |
| `Migrations.CopyAllLeavesOut` | trinohub/database.py:755-762 | none is left out but for a clash or a missing value |
| `CsvExport.ExportCsv` | web/app.js:10893-10908 | the loop joins the escaped cells and lines |
| `CsvExport.ReadEscaped` | web/app.js:10900-10905 | a written cell is read back, whatever it holds |
| `CsvExport.ExportIsReadBack` | web/app.js:10893-10908 | the whole table is read back if and only if neither header nor any row is without cells |
| `CsvExport.ExportSaysTable` | web/app.js:10893-10908 | what is read back, cell by cell: the header first, then the rows, and nothing for a missing value |
| `CsvExport.OnlyWhatNeedsQuotes` | web/app.js:10900-10905 | quotes are put around a text exactly when it holds a quote, a comma or a line feed |
| `ClusterSizing.QueryMemoryFits` | trinohub/aws_checks.py:183-207 | headroom and memory per node fit in the heap for every RAM size, with one GiB to spare exactly from 3 GiB of heap on |
| `ClusterSizing.SharesOfMemory` | trinohub/aws_checks.py:198-207 | heap and headroom are the largest whole parts of seven and three tenths, with their least values, and what is left is for queries |
| `ClusterSizing.FsCacheCatalogNames` | trinohub/aws_checks.py:635-656 | the loop returns the cached catalogs in order |
| `ClusterSizing.CachedNamesAreNames` | trinohub/aws_checks.py:635-656 | they are exactly the eligible catalogs, and fit to name a directory |
| `ClusterSizing.EligibleCatalogs` | trinohub/aws_checks.py:643-655 | which catalog is eligible, told from its entry and the connectors |
| `ClusterSizing.CachedNamesInOrder` | trinohub/aws_checks.py:643-655 | the eligible ones of a list in their order, none lost |
| `ClusterSizing.UsageIsWithinBudget` | trinohub/aws_checks.py:676-685 | the shares of all catalogs in the layout stay within 90 percent of a disk if and only if there are at most 90 of them |
| `ClusterSizing.DirectoriesDiffer` | trinohub/aws_checks.py:679-682 | no two directories are equal, over all catalogs and disks |
| `ClusterSizing.LayoutOfEach` | trinohub/aws_checks.py:671-685 | each cached catalog has one directory per disk, under the mount root, the disk's number and its name, and the largest whole share of ninety percent, but one |
| `ClusterSizing.DirectoriesAreApart` | trinohub/aws_checks.py:676-685 | no directory of the layout is given twice, on any two disks of any two catalogs |
| `ClusterSizing.ListsHaveOneValueEach` | trinohub/aws_checks.py:956-965 | read at the commas, the lines list every directory once and one percentage for each |

## Left out

- `trinohub/server.py`, `api.py`, `cloud_provider.py`, `secrets_store.py` and `run.py`: autoscaling, roles and grants, query limits, routing and storage are not part of this model.
- The DOM, event wiring, dialogs, charts, the Markdown renderer, and the retries and waits around AWS, SES, Trino and Caddy.
- Template parameters and data-product assets as text (web/app.js:2157-2172, 2339-2364): these forms are lossy by design and would add only short members.
- Characters are code points; surrogate pairs of JavaScript strings and case folding beyond ASCII in keywords are not modelled.
- SqlSearch.ReplaceAllSqlMatches: for matches within the text, as the search's own are unless folding lengthens the text by more than the query; JavaScript cuts the others off at its end.
- SqlTwice.FormattingTwice: which texts with swallowed comments are formatted alike twice is told by looking at the formatted text, not at the source.
- SqlQuoting.SnippetIsOneStatement: the three snippets with a table path; inserting a single column name is covered by UnquoteQuoted alone.
- NotebookPage.Notebooks: runtimes are objects, but cells and coroutines refer to them by their place in a list; what the page shows besides the runtimes, and the checks before a run starts (no SQL, no cluster), are left out, so the steps modelled are all those that can happen and more; saving is the request that is sent, in the order sent.
- EmailAgent.RunAgent: a query id that is not a number is not modelled; JSON texts are parameters, already parsed or printed by a function that is given.
- SecurityGroups.EnsureManagedSecurityGroup: tags and the failures of finding or creating the group are left out; EC2 authorizes a permission as a whole, reports a duplicate without adding, and revokes what exists.
- SecurityGroups.EnsureIsIdempotent: for the same network and the same refusals both times; SettingUpTwice tells what happens when the refusals differ.
- TlsText.TextMeansHostMap: inputs are single words other than a brace, which is checked elsewhere; host matching is equality, and which ranges a client is in is a parameter.
- Migrations.Database.ApplyMigrations: the state after a failed statement and names that differ in case only are left out.
- ClusterSizing.QueryMemoryFits: 0.7 and 0.3 are exact; floating-point rounding is left out.
- CsvExport.ExportIsReadBack: line breaks separate records; a text ending in one, which only a last row of a single empty cell gives, is read as having that row.
