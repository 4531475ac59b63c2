# KLEE Firehose reporting, modelled in Dafny

This project models the part of KLEE's diagnostic reporting that writes
Firehose static-analysis reports:

- **The Firehose report value model** (`include/klee/Firehose.h`,
  `lib/Support/Firehose.cpp`). It has immutable values: Point, Range, File,
  Function, Location, Message, Notes, State, Trace, Issue, Results,
  Generator, Metadata and Analysis. Each has structural equality and an
  XML serializer. Each type has one reserved absent ("dummy") value, which
  serializes to the empty string.
  - Composite elements collect their open tag, their children's markup and
    their close tag, and join them with `XML::mkString`. That function drops
    empty pieces and joins the rest with newlines.
  - Numbers are written in decimal.
- **The diagnostic classifier** (`determineFirehoseFailureInfoId`). It maps
  a formatted diagnostic to a Firehose id. The first matching entry of a
  nine-prefix table decides; after that come three substring rules, and
  otherwise `other`.
- **Warn-once deduplication** (`klee_warning_once`). It keeps an
  insert-only set of keys. "calling external" messages share one key per
  origin.
- **Routing in `klee_vmessage`.** This decides whether a diagnostic becomes
  a Firehose Info, a Failure, or nothing.

Modules:

- `Strings` (strings.dfy): `strncmp`-prefix and `strstr` predicates, and
  blank-line predicates.
- `Xml` (xml.dfy): `mkString` as a specification function plus a loop
  method, element framing, and `numberToString`.
- `Firehose` (firehose.dfy): one datatype per value type, with `Equals`
  for `operator==` and `ToXml` for `toXML()`. The absent values are
  constants `DummyPoint` … `DummyAnalysis`.
- `FirehoseFacts` (firehose_facts.dfy): properties that relate several
  values, and the renderings the unit tests spell out.
- `ErrorHandling` (error_handling.dfy): the classifier, the warn-once
  cache as a class with a `set` field, and the routing decision.

Where the header documentation and the code differ, the model follows the
code:

- The header says Failure ids are `symbol-loading` or `external-call`.
  `MakeFailure` states that as its precondition. The routing in
  `klee_vmessage` builds a Failure from any classifier output, and
  `ErrorFailureIdNotRestricted` shows an input where the id is outside that
  set.
- The source tests `*this == dummyPoint` (and likewise for the other
  types) naming the accessor function without calling it. The model
  compares with the absent value, which is what the comparison is meant
  to do.

## Model

| member | source | states |
|---|---|---|
| Strings.ContainsIffOccurs | lib/Support/ErrorHandling.cpp:138-146 | the scan that models a non-null `strstr` result finds the fragment exactly when it occurs at some position of the message |
| Strings.DiffersAt | lib/Support/ErrorHandling.cpp:134-136 | a message that differs from a prefix at some position inside the prefix does not pass the `strncmp` prefix test |
| Strings.StartsWithConcat | lib/Support/ErrorHandling.cpp:243 | a message built as a prefix followed by anything passes the `strncmp` prefix test for that prefix |
| Xml.NonEmptyMembers | lib/Support/Firehose.cpp:31-34 | the filtered pieces are exactly the non-empty input pieces |
| Xml.NonEmptyConcat | lib/Support/Firehose.cpp:31-34 | filtering keeps the original order: filtering a concatenation is the concatenation of the filtered parts |
| Xml.TerminatedConcat | lib/Support/Firehose.cpp:36-39 | writing every piece followed by the separator distributes over concatenation |
| Xml.JoinAsTerminated | lib/Support/Firehose.cpp:36-41 | the join puts the separator after every piece but the last, and nothing after the last |
| Xml.MkString | lib/Support/Firehose.cpp:28-43 | the joined string is empty exactly when every piece is empty |
| Xml.MkStringLoop | lib/Support/Firehose.cpp:28-43 | the two loops of mkString (filter, then stream with separators) compute the specification function `MkString` |
| Xml.FilterNonEmpty | lib/Support/Firehose.cpp:31-34 | the filtering loop yields exactly the non-empty pieces in order |
| Xml.JoinFiltered | lib/Support/Firehose.cpp:36-41 | the streaming loop yields the pieces separated by the separator, with none leading or trailing |
| Xml.NonEmptySnoc | lib/Support/Firehose.cpp:31-34 | one filtering step appends the piece exactly when it is non-empty |
| Xml.TerminatedSnoc | lib/Support/Firehose.cpp:37-38 | one streaming step appends the piece and the separator |
| Xml.MapMarkup | lib/Support/Firehose.cpp:220-223 | the children's markup list has one entry per child |
| Xml.MapMarkupAt | lib/Support/Firehose.cpp:220-223 | entry k of the markup list is the markup of child k |
| Xml.MapMarkupSnoc | lib/Support/Firehose.cpp:220-223 | one loop step appends the next child's markup |
| Xml.MapMarkupLoop | lib/Support/Firehose.cpp:217-223 | the push_back loop over the children yields their markup in order |
| Xml.MapMarkupConcat | lib/Support/Firehose.cpp:320-323 | the markup of a concatenation of children is the concatenation of their markups |
| Xml.LinesConcat | lib/Support/Firehose.cpp:28-43 | rendering concatenated children as lines is the concatenation of the renderings |
| Xml.LinesOfOne | lib/Support/Firehose.cpp:28-43 | one child contributes its markup and a newline, or nothing when it is absent |
| Xml.LinesOfTwo | lib/Support/Firehose.cpp:190-199 | two children contribute their lines in order, each skipped when absent |
| Xml.LinesOfThree | lib/Support/Firehose.cpp:291-302 | three children contribute their lines in order, each skipped when absent |
| Xml.LinesOfFour | lib/Support/Firehose.cpp:160-172 | four children contribute their lines in order, each skipped when absent |
| Xml.LinesAllPresent | lib/Support/Firehose.cpp:28-43 | when no child is absent, every child's markup is followed by exactly one newline |
| Xml.MkStringFramed | lib/Support/Firehose.cpp:28-43 | joining [open, children…, close] gives the open tag, a newline, each non-empty child on its own line, then the close tag |
| Xml.NonEmptyFramed | lib/Support/Firehose.cpp:31-34 | the tags survive filtering and the absent children are dropped |
| Xml.JoinFramed | lib/Support/Firehose.cpp:36-41 | joining a framed list puts a separator after the open tag and after every child |
| Xml.JoinNoBlankLine | lib/Support/Firehose.cpp:36-41 | joining pieces that have no blank line with newlines produces no blank line |
| Xml.MkStringNoBlankLine | lib/Support/Firehose.cpp:28-43 | dropping empty pieces means an omitted child never leaves a blank line |
| Xml.Element | lib/Support/Firehose.cpp:160-172 | a composite element is its open tag, a newline, one line per present child, and its close tag |
| Xml.ElementNoBlankLine | lib/Support/Firehose.cpp:160-172 | a composite element whose children have no blank line has none either |
| Xml.JoinBoundAsWritten | lib/Support/Firehose.cpp:37 | the loop bound `filtered.size() - 1` wraps to the largest size_t when nothing survives filtering |
| Xml.EmptyPiecesOverrunFiltered | lib/Support/Firehose.cpp:37 | for the input [""] the filtered vector is empty but the wrapped loop bound is positive |
| Xml.NumberToString | lib/Support/Firehose.cpp:22-26 | the decimal rendering is non-empty, all digits, one digit exactly below ten, and has a leading zero only for zero |
| Xml.NumberToStringRoundTrip | lib/Support/Firehose.cpp:22-26 | reading the rendering back as a decimal gives the number |
| Xml.NumberToStringInjective | lib/Support/Firehose.cpp:22-26 | distinct numbers render differently |
| Firehose.Point.Equals | lib/Support/Firehose.cpp:57-61 | field-wise comparison holds exactly when the points are equal |
| Firehose.Point.ToXml | lib/Support/Firehose.cpp:63-69 | empty exactly for the absent point; otherwise the point element with column and line in decimal |
| Firehose.Point.XmlNoBlankLine | lib/Support/Firehose.cpp:63-69 | the point markup has no blank line |
| Firehose.Range.Equals | lib/Support/Firehose.cpp:78-82 | field-wise comparison holds exactly when the ranges are equal |
| Firehose.Range.ToXml | lib/Support/Firehose.cpp:84-94 | empty exactly for the absent range |
| Firehose.Range.XmlFramed | lib/Support/Firehose.cpp:84-94 | a present range renders its tags around the lines of its two points, in order, skipping absent ones |
| Firehose.Range.XmlNoBlankLine | lib/Support/Firehose.cpp:84-94 | the range markup has no blank line |
| Firehose.File.Equals | lib/Support/Firehose.cpp:105-107 | comparison of the paths holds exactly when the files are equal |
| Firehose.File.ToXml | lib/Support/Firehose.cpp:109-113 | empty exactly for the absent file; otherwise the file element with the path inserted verbatim |
| Firehose.File.XmlNoBlankLine | lib/Support/Firehose.cpp:109-113 | a file whose path has no two newlines in a row renders without a blank line |
| Firehose.Function.Equals | lib/Support/Firehose.cpp:124-126 | comparison of the names holds exactly when the functions are equal |
| Firehose.Function.ToXml | lib/Support/Firehose.cpp:128-132 | empty exactly for the absent function; otherwise the function element with the name verbatim |
| Firehose.Function.XmlNoBlankLine | lib/Support/Firehose.cpp:128-132 | a function whose name has no two newlines in a row renders without a blank line |
| Firehose.Location.Equals | lib/Support/Firehose.cpp:152-158 | field-wise comparison holds exactly when the locations are equal |
| Firehose.Location.ToXml | lib/Support/Firehose.cpp:160-172 | empty exactly for the absent location |
| Firehose.Location.XmlFramed | lib/Support/Firehose.cpp:160-172 | a present location renders file, function, range and point in that order, skipping absent ones |
| Firehose.Location.XmlNoBlankLine | lib/Support/Firehose.cpp:160-172 | a location whose path and name have no two newlines in a row renders without a blank line |
| Firehose.LocationOfRange | lib/Support/Firehose.cpp:135-137 | the range constructor keeps file, function and range and sets the point to absent, so at most one of range and point is present |
| Firehose.LocationOfPoint | lib/Support/Firehose.cpp:139-141 | the point constructor keeps file, function and point and sets the range to absent, so at most one of range and point is present |
| Firehose.State.Equals | lib/Support/Firehose.cpp:184-188 | field-wise comparison holds exactly when the states are equal |
| Firehose.State.ToXml | lib/Support/Firehose.cpp:190-200 | empty exactly for the absent state |
| Firehose.State.XmlFramed | lib/Support/Firehose.cpp:190-200 | a present state renders location then notes, skipping absent ones |
| Firehose.State.XmlNoBlankLine | lib/Support/Firehose.cpp:190-200 | a state whose texts have no two newlines in a row renders without a blank line |
| Firehose.SeqEqual | lib/Support/Firehose.cpp:211-213 | element-wise vector comparison under an element comparison that agrees with equality holds exactly when the sequences are equal; Trace and Results compare their vectors with it |
| Firehose.StatesXmlConcat | lib/Support/Firehose.cpp:215-228 | the markup of concatenated states is the concatenation of their markups |
| Firehose.Trace.Equals | lib/Support/Firehose.cpp:211-213 | comparison of the state vectors, element by element with `State::operator==`, holds exactly when the traces are equal |
| Firehose.Trace.ToXml | lib/Support/Firehose.cpp:215-228 | empty exactly for the absent trace |
| Firehose.Trace.XmlNoBlankLine | lib/Support/Firehose.cpp:215-228 | a trace whose states have clean texts renders without a blank line |
| Firehose.Trace.RenderXml | lib/Support/Firehose.cpp:215-228 | the loop over the states followed by mkString computes the trace markup |
| Firehose.Message.Equals | lib/Support/Firehose.cpp:244-246 | comparison of the texts holds exactly when the messages are equal |
| Firehose.Message.ToXml | lib/Support/Firehose.cpp:248-252 | empty exactly for the absent message; otherwise the message element around the text verbatim |
| Firehose.Message.XmlNoBlankLine | lib/Support/Firehose.cpp:248-252 | a message with no two newlines in a row renders without a blank line |
| Firehose.Notes.Equals | lib/Support/Firehose.cpp:261-263 | comparison of the texts holds exactly when the notes are equal |
| Firehose.Notes.ToXml | lib/Support/Firehose.cpp:265-269 | empty exactly for the absent notes; otherwise the notes element around the text verbatim |
| Firehose.Notes.XmlNoBlankLine | lib/Support/Firehose.cpp:265-269 | notes with no two newlines in a row render without a blank line |
| Firehose.Issue.Equals | lib/Support/Firehose.cpp:284-289 | field-wise comparison holds exactly when the issues are equal |
| Firehose.Issue.ToXml | lib/Support/Firehose.cpp:291-302 | empty exactly for the absent issue |
| Firehose.Issue.XmlFramed | lib/Support/Firehose.cpp:291-302 | a present issue renders message, location and trace in that order, skipping absent ones |
| Firehose.Issue.XmlNoBlankLine | lib/Support/Firehose.cpp:291-302 | an issue whose texts are clean renders without a blank line |
| Firehose.MakeFailure | include/klee/Firehose.h:264-279 | a Failure built under the documented id restriction keeps its id, message and location |
| Firehose.IssuesXmlConcat | lib/Support/Firehose.cpp:315-328 | the markup of concatenated issues is the concatenation of their markups |
| Firehose.Results.Equals | lib/Support/Firehose.cpp:311-313 | comparison of the issue vectors, element by element with `Issue::operator==`, holds exactly when the results are equal |
| Firehose.Results.ToXml | lib/Support/Firehose.cpp:315-328 | empty exactly for the absent results |
| Firehose.Results.XmlNoBlankLine | lib/Support/Firehose.cpp:315-328 | results whose issues are clean render without a blank line |
| Firehose.Results.RenderXml | lib/Support/Firehose.cpp:315-328 | the loop over the issues followed by mkString computes the results markup |
| Firehose.Generator.Equals | lib/Support/Firehose.cpp:340-344 | field-wise comparison holds exactly when the generators are equal |
| Firehose.Generator.ToXml | lib/Support/Firehose.cpp:346-351 | empty exactly for the absent generator; otherwise the generator element with name and version verbatim |
| Firehose.Generator.XmlNoBlankLine | lib/Support/Firehose.cpp:346-351 | a generator whose name and version have no two newlines in a row renders without a blank line |
| Firehose.Metadata.Equals | lib/Support/Firehose.cpp:363-367 | comparison of the generators holds exactly when the metadata are equal |
| Firehose.Metadata.ToXml | lib/Support/Firehose.cpp:369-379 | empty exactly for the absent metadata |
| Firehose.Metadata.XmlFramed | lib/Support/Firehose.cpp:369-379 | present metadata renders its tags around the generator's line |
| Firehose.Metadata.XmlNoBlankLine | lib/Support/Firehose.cpp:369-379 | metadata with a clean generator renders without a blank line |
| Firehose.Analysis.Equals | lib/Support/Firehose.cpp:391-395 | field-wise comparison holds exactly when the analyses are equal |
| Firehose.Analysis.ToXml | lib/Support/Firehose.cpp:397-407 | empty exactly for the absent analysis |
| Firehose.Analysis.XmlFramed | lib/Support/Firehose.cpp:397-407 | a present analysis renders metadata then results, skipping absent ones |
| Firehose.Analysis.XmlNoBlankLine | lib/Support/Firehose.cpp:397-407 | a clean analysis renders without a blank line |
| FirehoseFacts.AbsentValuesAreBuiltFromAbsentParts | include/klee/Firehose.h:140-143 | absent composites are built from absent parts; the absent trace and results each hold one absent element, so the empty trace and results are present |
| FirehoseFacts.OmittedArgumentsAreAbsent | include/klee/Firehose.h:127-128 | omitted constructor arguments (location range, state notes, issue trace, failure location) are the absent values |
| FirehoseFacts.LocationOfRangeXml | unittests/Firehose/FirehoseTest.cpp:333-360 | a location built from a range renders file, function and range and no point |
| FirehoseFacts.LocationOfPointXml | unittests/Firehose/FirehoseTest.cpp:333-360 | a location built from a point renders file, function and point and no range |
| FirehoseFacts.EmptyTraceRendersTags | unittests/Firehose/FirehoseTest.cpp:560-567 | the empty trace is present and renders as its two tags on separate lines |
| FirehoseFacts.EmptyResultsRendersTags | unittests/Firehose/FirehoseTest.cpp:794-801 | the empty results are present and render as their two tags on separate lines |
| FirehoseFacts.TraceXmlOrder | lib/Support/Firehose.cpp:215-228 | the states of a trace appear in the markup in sequence order |
| FirehoseFacts.TraceXmlAllPresent | lib/Support/Firehose.cpp:215-228 | when no state is absent, each state's markup appears on its own line, in order, between the tags |
| FirehoseFacts.ResultsXmlOrder | lib/Support/Firehose.cpp:315-328 | the issues of a result list appear in the markup in sequence order |
| FirehoseFacts.ResultsXmlAllPresent | lib/Support/Firehose.cpp:315-328 | when no issue is absent, each issue's markup appears on its own line, in order, between the tags |
| FirehoseFacts.IssueAbsentTraceOmitted | unittests/Firehose/FirehoseTest.cpp:623-646 | an issue whose trace was left out renders message and location only |
| FirehoseFacts.IssueEmptyTraceShown | unittests/Firehose/FirehoseTest.cpp:623-646 | an issue with an empty trace still renders the trace's two tags after message and location |
| FirehoseFacts.MkStringDropsEmptyPieces | unittests/Firehose/FirehoseTest.cpp:131-147 | mkString of "abra", "", "cadabra", "" with a blank separator is "abra cadabra" |
| FirehoseFacts.PointXmlExample | unittests/Firehose/FirehoseTest.cpp:175-183 | the point at column 10, line 4 renders as the expected point element |
| FirehoseFacts.GeneratorXmlExample | unittests/Firehose/FirehoseTest.cpp:846-855 | the generator "klee" version "1.2.0" renders as the expected generator element |
| FirehoseFacts.AnalysisWithoutIssuesXml | unittests/Firehose/FirehoseTest.cpp:943-965 | an analysis with no issues is present and renders its metadata then empty results tags |
| ErrorHandling.FirstPrefixFrom | lib/Support/ErrorHandling.cpp:134-136 | the index found is the first table prefix, from the start position on, that the message starts with, or the table size when none does |
| ErrorHandling.DetermineFailureInfoId | lib/Support/ErrorHandling.cpp:102-149 | the loop with early return and the substring chain compute `FailureInfoId`, which is always one of the 13 ids |
| ErrorHandling.FailureInfoIdIsClassifierId | lib/Support/ErrorHandling.cpp:102-149 | the classifier is total and returns one of the 13 fixed ids |
| ErrorHandling.IdsDistinct | lib/Support/ErrorHandling.cpp:104-132 | the two tables have equal length (the assertion at line 132), the table ids are pairwise distinct and differ from the four other ids |
| ErrorHandling.TableIdIff | lib/Support/ErrorHandling.cpp:134-136 | the result is table id k exactly when prefix k matches and no earlier prefix does |
| ErrorHandling.FragmentIdsIff | lib/Support/ErrorHandling.cpp:138-148 | each substring rule decides exactly when no prefix matched and no earlier substring rule applies; otherwise the result is "other" |
| ErrorHandling.MissingCharNotContained | lib/Support/ErrorHandling.cpp:138-146 | a string lacking some character of the fragment does not contain the fragment |
| ErrorHandling.NoPrefixFromInitial | lib/Support/ErrorHandling.cpp:134-136 | a message whose first character begins no table prefix matches no prefix |
| ErrorHandling.CallingExternalMessages | unittests/Firehose/FirehoseTest.cpp:72-99 | every message beginning "calling external" is classified calling-external |
| ErrorHandling.SymbolLoadingMessages | unittests/Firehose/FirehoseTest.cpp:72-99 | every message beginning "unable to load symbol" is classified symbol-loading |
| ErrorHandling.SilentlyIgnoringExample | unittests/Firehose/FirehoseTest.cpp:72-99 | a syscall message ending in "silently ignoring" is classified silently-ignoring |
| ErrorHandling.InlineAsmExample | lib/Support/ErrorHandling.cpp:138-140 | a warning that a function has inline asm is classified inline-asm |
| ErrorHandling.NoRuleMatches | lib/Support/ErrorHandling.cpp:147-148 | a message matching no prefix and lacking a character of each fragment is classified other |
| ErrorHandling.OtherExample | unittests/Firehose/FirehoseTest.cpp:72-99 | "Invalid pointer" is classified other |
| ErrorHandling.KeyOf | lib/Support/ErrorHandling.cpp:240-246 | the key keeps the origin and uses either the message or the literal "calling external" |
| ErrorHandling.SameKeyIff | lib/Support/ErrorHandling.cpp:240-246 | two warnings share a key exactly when they have the same origin and either the same message or both begin with "calling external" |
| ErrorHandling.WarnOnceCache.constructor | lib/Support/ErrorHandling.cpp:237 | the key set starts empty |
| ErrorHandling.WarnOnceCache.WarnOnce | lib/Support/ErrorHandling.cpp:248-254 | emits exactly when the key was not yet in the set, and the set grows by exactly that key |
| ErrorHandling.ExternalCallsWarnedOnce | lib/Support/ErrorHandling.cpp:240-254 | of two "calling external" warnings from one origin only the first is emitted |
| ErrorHandling.OriginsWarnedSeparately | lib/Support/ErrorHandling.cpp:236-254 | the same message from two origins is emitted for both, and a repeat from the first is suppressed |
| ErrorHandling.FirehoseElementFor | lib/Support/ErrorHandling.cpp:176-191 | an element is produced exactly when a prefix is given, the sink is open and the prefix is WARNING…, NOTE or ERROR; WARNING… and NOTE give an Info, ERROR a Failure, both with the classifier id and the formatted text |
| ErrorHandling.PlainMessagesNotRouted | lib/Support/ErrorHandling.cpp:195-208 | messages without a prefix never produce a Firehose element |
| ErrorHandling.EntryPointsRouted | lib/Support/ErrorHandling.cpp:219-254 | warnings and warn-once warnings give an Info and errors give a Failure |
| ErrorHandling.ErrorFailureIdNotRestricted | lib/Support/ErrorHandling.cpp:187-188 | an error routed to a Failure can carry an id outside the documented Failure ids |

## Left out

- Console and log-file output: `klee_vfmessage`, `shouldSetColor` and the colour handling (lib/Support/ErrorHandling.cpp:36-98). This is terminal I/O.
- The `fprintf`/`fflush` writes of element markup to the Firehose file (lib/Support/ErrorHandling.cpp:185, 189, 191). The model stops at the element to be written.
- `close_firehose_file` (lib/Support/ErrorHandling.cpp:210-217) writes closing tags and closes a file. This is I/O.
- Process exit in `klee_error` (lib/Support/ErrorHandling.cpp:225). Only its routing is modelled.
- printf-style formatting with `vsprintf` into a 512-byte buffer (lib/Support/ErrorHandling.cpp:177-178). The classifier and the routing take the already formatted text, so a message longer than the buffer is not modelled.
- ErrorHandling.WarnOnceCache.WarnOnce: the source keys by pointer identity of the origin and of the format string. The model keys by an `Origin` value and by the format string's contents, so two equal strings at different addresses share a key here and do not in the source.
- The constructors, `operator==` and `toXML()` of Failure, Info and FailureOrInfo are declared in include/klee/Firehose.h:258-305, but their definitions are not part of this model. Only their data shape is modelled.
- The empty `SUT` class (include/klee/Firehose.h:356-365) and the commented-out failure and info vectors of Results. They carry no behaviour.
- Xml.NumberToString: accepts any `nat`. The 32-bit bound of `unsigned` is carried by the `Unsigned` type of `Point`'s column and line, not by the rendering function.
- The strings are modelled as character sequences. An embedded NUL, which would end a C string early in `strncmp`/`strstr`, is not modelled.
- No XML escaping happens in the source, and none in the model. Text is inserted verbatim.
- The blank-line lemmas (`XmlNoBlankLine`) assume texts with no two newlines in a row. Arbitrary text can introduce blank lines, just as in the source.

## Findings

| source | as written | input that shows it | evidently intended | confidence | as-written member | corrected member |
|---|---|---|---|---|---|---|
| lib/Support/Firehose.cpp:37 | the streaming loop runs up to `filtered.size() - 1`, an unsigned `size_t` that wraps to its largest value when no piece survives filtering, so `filtered[i]` is read past the end | `mkString` of a list whose pieces are all empty, e.g. [""] | a list with no non-empty piece joins to the empty string | not executed | Xml.EmptyPiecesOverrunFiltered | Xml.MkString |
