# PgFox: a verified model of the multiplexer, the literal extractor and LISTEN

PgFox lets many PostgreSQL clients share few backend connections. This project models the three parts whose
correctness is not visible in any one function, and proves what they promise.

**The multiplexer.** `Protocol` is one PostgreSQL session (sections 55.2.2 and 55.2.3 of the PostgreSQL 16 documentation):
prepared statements, portals, transaction status, discarding after an error. `Naming`, `Deployment` and `Virtual` are the
phases of a pipeline: renaming client statements to shared ones, forwarding, counting acknowledgements, deploying what a
Bind needs. `CachedQuery` is a simple query served from the statement cache. `Connection` is a backend with its unread
replies and its record of deployed statements. `Custody` is who has a backend, with the pointers of the code.
`Multiplexer` puts them together as a step system: login, query, NOTIFY, pipeline, reading replies, lost replies, failed
writes, disconnect, a lost monitor, and the target's open, close, shrink and health-check steps, in any interleaving of
any number of clients. `Runs`, `Upkeep`, `Guarantees` and `Namespaces` prove what holds over whole runs. `Engine` holds
the same operations as objects and loops, each proved against those specifications.

**The literal extractor.** `Lexer` says what a region of SQL text is; `Scanner` has the loops; `LexerLaws` states the scanner
against declared regions and the splice round trip. `SqlText` relates a token sequence to its printed text and
`SqlTree` a statement tree to its walk, its text and its rewritten form. `Addressing` joins this to the names of the multiplexer.

**The rest.** `Wire` is the byte layout of Parse, Bind, Describe and Close (section 55.7). `TargetManager` is the
connection budget. `Notifications` is LISTEN and UNLISTEN with shared monitors and transaction-deferred subscriptions.

Text is a byte string, one character per byte. A hash is an injective constructor on the canonical text. A statement's
text is kept as its canonical text with the values extracted from it, or as a text that cannot be parameterized; a
text without extracted values is its own canonical text, modulo trimming. What a request meets on the server (accepted
or not, rows, final transaction status, and at Sync whether the commit succeeds) is a value chosen by the environment for
each request, so every statement is for all outcomes.

## Hypotheses and findings

The code falls short of an unrestricted statement in the places below. Each has a lemma with the failing case or an
if-and-only-if with the exact condition, and the main results state the condition.

Who has a connection:

- A lost reply on the extended or cached path is reported as success without a status, and reconciling then queues the
  backend while a client pinned by named statements still points to it (`LosingPinnedBreaksOwnership`).
- A client that is closed because a channel has lost its monitor forgets its pinned backend without releasing it: the
  target goes on counting a connection that is in no place (`StrandedPinIsNowhere`, `DropKeeps`). `StaysIntactIff` says
  that these two steps are all that break the books.
- A lost reply of any other client on the extended or cached path puts its backend into the queue with the rest of the reply
  on the wire, possibly inside a transaction (`LostReplyIsCleanIff`, `CutOffReplyIsQueued`).

What a pipeline does:

- The hash ignores inlined values, the deployed text keeps them (`InlinedValuesLeak`, `FaithfulIff`).
- Acknowledgements of a client's own Parse advance the index of the shared ones (`MarksAreExactIff`,
  `ExactForEveryOutcomeIff`).
- A re-Parse of a mapped name to a text that cannot be shared leaves the old mapping (`StaleMapping`, `NameStaysTrueIff`).
- In a session that is discarding after a failed Flush, the first deployment reports success although the server has
  discarded its Parse, and its Sync ends the discarding, so that what follows is executed (`DeploymentEndsDiscarding`,
  `SecondDeploymentRuns`).
- Describe does not deploy, and neither does a Bind before the Parse of its hash (`DeployedUnlessMissing`,
  `NoBindMissesIff`).
- A simple query on the cached path that runs to its end and whose commit is then refused, as a deferred constraint can do
  at Sync, is reported as completed before the error (`CachedRefinesPlain`, `RefusedCommitFollowsSuccess`).
- A discarded or stray Close lowers the count of named statements (`DiscardedCloseIsCounted`, `StrayCloseIsCounted`,
  `CountHoldsIff`, `LandsForEveryOutcomeIff`).
- Closing a mapped name closes the client's unnamed statement. The comment in the code calls this a no-op when it is
  empty; when it is not, the statement is gone (`CloseDropsUnnamedIff`).
- Reading after a Flush without Describe never ends unless a request fails (`BareFlushBlocks`, `FlushAlwaysEndsIff`), and
  with anything after the first Describe it stops early (`EarlyStopLeavesUnmarked`, `FlushAlwaysReadsAllIff`).

Literals:

- The scanner does not know words, touching type names or leading points: a number inside a word or after a leading point
  is taken for an equal literal (`DigitInsideWord`, `FractionTakenForInteger`; exactly when, `TextRewriteIffNoShadow`), and a
  string that touches a word is cut or missed (`TypedStringCutsItsTypeName`, `TouchingStringIff`).
- A tag inside a name is taken for a dollar quote, and an opened bit string at the end of the text makes the reader slice
  out of range; together they break on a statement that the parser accepts (`OpenBitStringPanics`, `StatementPanics`).
- A negative constant is one node of the tree whose text starts with a minus sign; the scanner reads numbers without a
  sign, so such a literal is never located (`NegativeIsNotLocated`) and the statement is not parameterized.
- The walk visits OFFSET before LIMIT (`SelectOrder`, `OffsetIsWalkedBeforeLimit`), and a LIMIT count can be taken for an
  equal literal after it.
- A comment in the walk promises literals of table functions in FROM; the walk has no case for them, so they are never
  collected. The model follows the code (`TableFunctionsAreNotCollected`).

The rest:

- A comment promises that growth recycles idle slots before using fresh ones; at the connection limit the loop stops before
  it looks for one, so a full target never recycles (`GrowContended`, `GrowthCycle`).
- The builder of Bind bodies documents nil as NULL, but its values are strings and cannot express NULL
  (`BuildBindRoundTrip`).
- COMMIT AND CHAIN and a lost connection both leave buffered LISTEN actions behind, and after a lost connection a NOTIFY
  does not clear them and a LISTEN is buffered (`ChainedCommitIsMissedIff`, `LostTransactionIff`, `LossResolvedIff`,
  `NoticeKeepsTheBuffer`, `ListenAfterLossIsBuffered`, `ChainedRollbackKeepsIff`).

The results over whole runs are kept apart, each with the hypotheses it needs. Ownership, affinity and cancel routing
need only that the first step above does not happen. Clean return (`Upkeep.Cleanliness`) needs that no Close harms the
count, that a NOTIFY leaves the session idle and that no lost reply does harm (`LoseTendsIff`); inlined values, mixed Parse
messages and partly read Flushes do not matter to it. A right record is a matter of one hash
(`Upkeep.Bookkeeping`): it needs that no Parse of a client's own stands before the first one of that hash, that nothing
stands between the first Describe and a Flush, and that no lost reply does harm; inlined values, stray Closes, re-parsed
names and Parse messages of other hashes do not matter to it. What a hash stands for depends only on the texts parsed with
that hash, what a name stands for only on that client's messages with that name, and the registry is complete without any
hypothesis (`Namespaces`).

## Model

| member | source | states |
|---|---|---|
| Scanner.ReadSingleQuotedString | pkg/pgfox/parser.go:723-740 | the loop returns the decoded body of a quoted string (doubled quotes folded) and the offset after it |
| Scanner.ReadEString | pkg/pgfox/parser.go:744-776 | the same for escape strings with backslash escapes |
| Scanner.ReadDollarQuoted | pkg/pgfox/parser.go:780-794 | where a dollar-quoted string ends; one byte when the tag does not open one |
| Scanner.ReadBitString | pkg/pgfox/parser.go:798-808 | value with prefix and end of a bit string, including the dropped byte of an unclosed one |
| Scanner.ReadNumber | pkg/pgfox/parser.go:812-832 | digits, fraction and exponent, as far as they go |
| Scanner.NextRegion | pkg/pgfox/parser.go:582-714 | one turn of the search loop classifies the region at the head of the text and its length |
| Scanner.FindNextLiteral | pkg/pgfox/parser.go:578-717 | the loop terminates on every text and returns the result of the search specification |
| Scanner.RewriteLiterals | pkg/pgfox/parser.go:522-557 | the rewriting loop returns the result of the rewriting specification, or the error |
| LexerLaws.QuotedDecodes | pkg/pgfox/parser.go:723-740 | the reader stops at the first quote that is not doubled, and what it took is the doubled form of the value |
| LexerLaws.QuotedRoundTrip | pkg/pgfox/parser.go:723-740 | reading a string that was printed with doubled quotes gives the string back |
| LexerLaws.IndexIsFirst | pkg/pgfox/parser.go:780-794 | the closing tag that is found is the first occurrence |
| LexerLaws.DollarIsAsDeclared | pkg/pgfox/parser.go:780-794 | a dollar-quoted region runs from its tag to the first repetition of the tag, or to the end |
| LexerLaws.EscapedDecodesIff | pkg/pgfox/parser.go:744-776 | the reader returns a value and a length if and only if the body is a run of escape units up to the first quote neither escaped nor doubled (or to the end) that means that value |
| LexerLaws.NumberIsLongest | pkg/pgfox/parser.go:812-832 | the number taken is a numeral (digits, then optionally a point with digits, then optionally an exponent) and no longer prefix of the text is one |
| LexerLaws.RegionsAreUnique | pkg/pgfox/parser.go:582-714 | the declared shapes leave no choice: two regions at the head of a text are one, in kind, length and value |
| LexerLaws.RegionIsDeclaredIff | pkg/pgfox/parser.go:582-714 | the scanner recognises a region if and only if it is the declared one |
| LexerLaws.NegativeIsNotLocated | pkg/pgfox/parser.go:653-664 | a literal written with a leading minus sign, as the tree gives a negative constant, is found in no text |
| LexerLaws.RegionsAreAsDeclared | pkg/pgfox/parser.go:582-714 | every region recognised has a declared shape (comment, quoted name, string, dollar string, bits, number) at its declared length |
| LexerLaws.CharacterClasses | pkg/pgfox/parser.go:836-839 | the classes of characters that the reader tests, by their members |
| LexerLaws.FindIsFirstMatch | pkg/pgfox/parser.go:578-717 | the search result is the one explained by tiling the text into regions: everything before the match is skipped region by region; both directions |
| LexerLaws.SpliceRoundTrip | pkg/pgfox/parser.go:522-557 | whenever rewriting succeeds there are disjoint increasing spans, one per literal, each decoding to the returned value; in place of the i-th stands a dollar sign and the decimal numeral of i; the source tokens restore the source byte for byte |
| LexerLaws.DecimalIff | pkg/pgfox/parser.go:545-547 | a string is the printed number if and only if it is digits without a leading zero whose value by place is that number; so no two placeholders are alike |
| LexerLaws.DigitInsideWord | pkg/pgfox/parser.go:653-664 | a digit inside a word is taken for an integer literal |
| SqlText.DigitlessWord | pkg/pgfox/parser.go:653-664 | a word without digits contains no literal |
| LexerLaws.TypedStringCutsItsTypeName | pkg/pgfox/parser.go:634-642 | a type name ending in E and touching its string loses that letter to the span |
| SqlText.TouchingStringIff | pkg/pgfox/parser.go:634-652 | a string that touches a word is found at its own quotes if and only if the word does not end in a letter that opens an escape string or a bit string |
| LexerLaws.FractionTakenForInteger | pkg/pgfox/parser.go:653-664 | the digits after a leading point match an integer literal |
| SqlText.OpenBitStringPanics | pkg/pgfox/parser.go:798-808 | whatever literal is sought, a statement with a tag inside a name whose repetition in a comment is followed by an opened bit string at the end makes the reader slice out of range |
| SqlText.StatementPanics | pkg/pgfox/parser.go:798-808 | for instance select a$b$ from t where x = 1 -- $b$ b' when the value of x is sought |
| SqlText.ScanToken | pkg/pgfox/parser.go:578-717 | scanning over one printed token takes all of it when it is the literal sought, stops inside when it contains the literal (a number in a word, the digits after a leading point), and passes over otherwise |
| SqlText.ScanWord | pkg/pgfox/parser.go:653-664 | a word is scanned like its own text alone, digits and all |
| SqlText.TextRewriteIffNoShadow | pkg/pgfox/parser.go:522-557 | rewriting printed tokens gives the tokens with the i-th collected literal replaced by a placeholder that reads back as i, and exactly the collected values, if and only if no uncollected literal or word is or contains the next collected literal |
| SqlTree.SelectOrder | pkg/pgfox/parser.go:377-378 | a visited sub-select is collected in the order of its text if and only if the walk of OFFSET then LIMIT gives the same as that of LIMIT then OFFSET |
| SqlTree.PrintOrder | pkg/pgfox/parser.go:318-512 | where every visited sub-select meets that condition, the literals of the printed statement, left to right, are those of the tree walk in the order of the walk |
| SqlTree.PrintNumbers | pkg/pgfox/parser.go:318-512 | replacing tokens in the printed text is printing the tree with its collected constants replaced by numbered parameters |
| SqlTree.TreeRewriteAgrees | pkg/pgfox/parser.go:522-557 | scanning the printed text with the literals of the walk yields the printed rewritten tree, its placeholders reading 1, 2, 3 from left to right, and the values of the walk, if and only if nothing passed over is or contains the next collected literal |
| SqlTree.OneTemplateOneText | pkg/pgfox/parser.go:98-138 | two statements that differ only in collected literals get one canonical text and each returns exactly its own values |
| SqlTree.NumericOffset | pkg/pgfox/parser.go:377-378 | an OFFSET that holds numbers only meets the condition, whatever LIMIT holds |
| SqlTree.OffsetIsWalkedBeforeLimit | pkg/pgfox/parser.go:377-378 | with different quoted constants after LIMIT and OFFSET the walk collects them in the opposite order of the text |
| SqlTree.TableFunctionsAreNotCollected | pkg/pgfox/parser.go:318-512 | the literals of a table function in FROM are printed and not collected |
| SqlTree.LimitIsTakenForTheNextLiteral | pkg/pgfox/parser.go:377-378 | an uncollected count followed by an equal collected constant makes the text rewrite differ from the tree rewrite |
| Addressing.OneTemplateOneName | pkg/pgfox/parser.go:98-138 | statements of one template get one hash, each with its own values |
| Addressing.CachedWorkIsOwn | pkg/pgfox/query.go:654-672 | two simple queries of one template on one backend: the second needs no Parse, and the only work reported to its client is the canonical text with its own values |
| Addressing.TemplatesShareAStatement | pkg/pgfox/query.go:163-190 | two named statements of one template with different values: the second to be prepared on a backend runs the first |
| Wire.FindNul | pkg/pgfox/extended.go:45-51 | the first NUL at or after an offset, or -1 |
| Wire.RewriteParseBodyName | pkg/pgfox/extended.go:38-64 | the loop and buffer produce the renamed body; a malformed body comes back unchanged |
| Wire.RewriteBindBodyName | pkg/pgfox/extended.go:148-194 | the same for Bind, after the portal name |
| Wire.ParseBodyStatementName | pkg/pgfox/extended.go:68-75 | the statement name; empty for a body without NUL |
| Wire.ParseBodyQuery | pkg/pgfox/extended.go:78-102 | for every body: what stands between the first two NULs, the rest when the second is missing, nothing without the first; for a decodable body the query |
| Wire.BindBodyStatementName | pkg/pgfox/extended.go:197-217 | for every body: what stands between the first two NULs, or nothing; for a decodable body the statement name |
| Wire.CloseBodyTarget | pkg/pgfox/extended.go:224-235 | for every body: its first byte, and what follows up to the first NUL or to the end; for a decodable body kind and name |
| Wire.BuildParseBody | pkg/pgfox/extended.go:14-33 | the appended buffer is the encoded message |
| Wire.BuildBindBody | pkg/pgfox/extended.go:111-143 | the appended buffer is the encoded message |
| Wire.RenameParseCommutes | pkg/pgfox/extended.go:38-64 | decoding the renamed body is renaming the decoded message, for every body, malformed ones included |
| Wire.RenameBindCommutes | pkg/pgfox/extended.go:148-194 | the same for Bind: portal, formats, arbitrary parameter bytes and result formats stay |
| Wire.RenameTargetCommutes | pkg/pgfox/extended.go:263-279 | a Describe or Close body becomes one of the same kind for the new name |
| Wire.BuildParseRoundTrip | pkg/pgfox/extended.go:14-33 | decoding a built Parse body gives the message back if and only if name and query are free of NUL and there are fewer than 2^16 types |
| Wire.BuildBindRoundTrip | pkg/pgfox/extended.go:111-143 | the same for Bind, with fewer than 2^16 codes, values and result codes and values shorter than 2^31 bytes |
| Naming.NameStaysTrueIff | pkg/pgfox/query.go:129-243 | for one name and one hash: a message keeps the name standing for the text last parsed under it if and only if it carries no extracted values under that hash and does not re-parse the name, mapped to that hash, to a text that cannot be shared |
| Naming.AgreeOne | pkg/pgfox/query.go:129-243 | the same for all names at once |
| Naming.BindIsRenamed | pkg/pgfox/query.go:200-211 | a Bind of a mapped name becomes a Bind of the shared name of the text the client last parsed; of an unmapped name it is unchanged |
| Naming.DescribeIsRenamed | pkg/pgfox/query.go:213-219 | a Describe of a mapped name asks for the shared name of the text the client last parsed; of an unmapped name it is unchanged |
| Naming.MapsToIff | pkg/pgfox/query.go:129-243 | after a pipeline a name maps to a hash if and only if the last message that could map or close it is a shareable Parse of that hash, or there is none and it did before |
| Naming.ViewIff | pkg/pgfox/query.go:129-243 | the private namespace: a name stands for a text if and only if its last Parse or Close is the Parse of that text, or there is none and it did before |
| Naming.PinsIff | pkg/pgfox/query.go:151-198 | a pipeline asks for a pin if and only if it parses an unnamed statement or a text that cannot be shared |
| Naming.CountsByOne | pkg/pgfox/query.go:192-238 | the count goes up by one with a named Parse that cannot be shared, down by one, not below zero, with a Close of an unmapped name, and nowhere else |
| Naming.StaleMapping | pkg/pgfox/query.go:192-198 | a name that is mapped and then parsed to a text that cannot be shared still leads to the old statement |
| Deployment.AckedIsPrefix | pkg/pgfox/query.go:463-481 | the acknowledged Parse messages of a pipeline are a prefix of those forwarded, all of them when nothing failed |
| Deployment.SentIsNew | pkg/pgfox/query.go:397-415 | nothing is forwarded that the record lists as deployed |
| Deployment.HeldGrows | pkg/pgfox/query.go:397-415 | a pipeline adds exactly the acknowledged shared statements to what the backend holds and evicts none |
| Deployment.MarkIsRightIff | pkg/pgfox/query.go:478-481 | for one hash: the record is right about it after the replies if and only if it was recorded before or the acknowledgements have not overtaken it, that is reached its mark while its own Parse is not among the acknowledged ones |
| Deployment.MarksAreExactIff | pkg/pgfox/query.go:478-481 | the record equals what the backend holds if and only if nothing is overtaken; without repeated hashes, if and only if no Parse of the client's own was acknowledged or every forwarded shared one was |
| Deployment.MarksCoverHeld | pkg/pgfox/query.go:478-481 | when all replies are read the record never misses a statement that is held, whatever is mixed or repeated; a Flush whose reading stops early is the other case (EarlyStopLeavesUnmarked) |
| Deployment.SharedFirstIsExact | pkg/pgfox/query.go:397-422 | with shared Parse messages first, repeated or not, the record is exact for every outcome |
| Deployment.RightForEveryOutcomeIff | pkg/pgfox/query.go:478-481 | for one hash: the record is right for every outcome if and only if no run of successes overtakes it |
| Deployment.ExactForEveryOutcomeIff | pkg/pgfox/query.go:478-481 | the same for all hashes, repeated or not |
| Deployment.ShiftsIffOwnBefore | pkg/pgfox/query.go:478-481 | without repeated hashes something can be overtaken if and only if a Parse of the client's own that the session can accept precedes a forwarded shared one |
| Deployment.SuccessGoesFurthest | pkg/pgfox/query.go:393-422 | if any outcome gets through the messages, the one in which everything succeeds does, to the same statements and portals |
| Deployment.MixedParsesAreMisattributed | pkg/pgfox/query.go:478-481 | a private Parse before a failing shared one leaves the record wrong |
| Virtual.InjectHolds | pkg/pgfox/query.go:335-391 | for each hash that the record is right about: after a deployment that reports success it still is, and the backend holds the statement if and only if it did or the deployment reached it, which it does not for the first one in a session that was discarding; the discarding has ended unless nothing was requested |
| Virtual.FaithfulIff | pkg/pgfox/query.go:187-190 | a deployed statement stays the canonical text it is named after unless a text with inlined values is acknowledged under its name |
| Virtual.StatementIsThereIff | pkg/pgfox/query.go:393-422 | a Bind or Describe of a shared name that is reached and acceptable fails if and only if the statement was neither held nor parsed earlier in the pipeline |
| Virtual.DeployedUnlessMissing | pkg/pgfox/query.go:335-391 | after deployment a statement is neither held nor parsed earlier if and only if it was not recorded and is parsed later, is named by no Bind, or is the first to deploy in a session that is discarding |
| Virtual.NoBindMissesIff | pkg/pgfox/query.go:335-391 | no Bind of a pipeline misses its statement if and only if every statement both parsed and bound is parsed first, and a discarding session is asked to deploy nothing |
| Virtual.NameLeadsToLatestParse | pkg/pgfox/query.go:129-243 | for one pipeline on any backend in step, discarding or not: a Bind or a Describe of a mapped name is sent for the shared statement; reached and acceptable it fails exactly when that statement is missing, and otherwise the statement has the text of the client's latest Parse |
| Virtual.PresentServes | pkg/pgfox/query.go:200-219 | with the statement there, the Bind binds that text with its own arguments and the Describe describes it |
| Virtual.ForwardIff | pkg/pgfox/query.go:397-422 | a message is forwarded as often as it comes, except a Parse of a recorded statement, which never is |
| Virtual.InlinedValuesLeak | pkg/pgfox/query.go:163-190 | two texts with one canonical form: the second client's Bind runs the values of the first |
| Virtual.DeploymentEndsDiscarding | pkg/pgfox/query.go:366-390 | after a failed Flush the deployment of one statement reports success without deploying it, and its Sync ends the discarding: the Bind is executed and fails |
| Virtual.SecondDeploymentRuns | pkg/pgfox/query.go:366-390 | with two statements the second is deployed, and its Bind runs where the server would have discarded it |
| Virtual.CloseDropsUnnamedIff | pkg/pgfox/query.go:225-233 | closing a mapped name leaves the session as it was if and only if the server is discarding or there is no unnamed statement; otherwise exactly that one is gone |
| CachedQuery.CachedRefinesPlain | pkg/pgfox/query.go:610-712 | with a right record the filtered replies of the cached path equal those of the plain query, in success and in every error, if and only if no commit is refused after the statement has run to its end; what the backend then holds follows from its acknowledgement |
| CachedQuery.CachedRefinesPlainIff | pkg/pgfox/query.go:646-653 | over every outcome and every record: with a wrong record the answers agree only when the plain query answers nothing but an error |
| CachedQuery.RefusedCommitFollowsSuccess | pkg/pgfox/query.go:744-789 | when the commit at Sync is refused the client of the cached path has been told that the statement completed, the client of the plain query has not |
| Connection.DeliverySettles | pkg/pgfox/query.go:393-449 | for one hash: a pipeline with no Parse of the client's own before its first one, ended by Sync, or by a Flush with nothing between its first Describe and the Flush: when its reading ends nothing is left unread and the record is right about the hash |
| Connection.DeliveryAnswers | pkg/pgfox/query.go:393-449 | whatever the pipeline, its only ReadyForQuery is the last reply and tells the session's status |
| Connection.PrivateAfterIff | pkg/pgfox/query.go:192-243 | one message keeps the count of named statements from falling below the number of the client's own statements if and only if it is no Close of an own name, or the Close finds its statement, or the count was too high or zero already |
| Connection.CountStaysExactIff | pkg/pgfox/query.go:192-243 | a count that is exact stays exact if and only if a counted Parse is acknowledged and a Close of an own name finds its statement or finds the count at zero |
| Connection.CountHoldsIff | pkg/pgfox/query.go:192-243 | over a pipeline the count stays right throughout if and only if every Close meets that condition |
| Connection.LandsForEveryOutcomeIff | pkg/pgfox/query.go:234-238 | a Close finds its statement for every outcome if and only if the session is not discarding, holds it, and nothing but other Closes is forwarded before it |
| Connection.DiscardedCloseIsCounted | pkg/pgfox/query.go:234-238 | a Close discarded after an error still lowers the count, to zero while the statement lives |
| Connection.StrayCloseIsCounted | pkg/pgfox/query.go:234-238 | so does a Close of a name that was never parsed |
| Connection.LoneCloseLands | pkg/pgfox/query.go:234-238 | a Close sent on its own for a statement that the backend holds finds it and keeps the count right |
| Connection.FlushEndsIff | pkg/pgfox/query.go:858-891 | reading after a Flush ends, for one outcome, if and only if a request failed or a Describe was forwarded |
| Connection.FlushAlwaysEndsIff | pkg/pgfox/query.go:858-891 | it ends for every outcome if and only if a Describe is forwarded or no outcome gets through the pipeline |
| Connection.FlushReadsAllIff | pkg/pgfox/query.go:858-891 | it stops exactly at the last reply, for one outcome, if and only if a request failed up to the first Describe or that Describe is the last message |
| Connection.FlushAlwaysReadsAllIff | pkg/pgfox/query.go:858-891 | a reading that ends has taken every reply, for every outcome, if and only if no message follows the first Describe or that one can never succeed |
| Connection.DescribedFlushSettles | pkg/pgfox/query.go:858-891 | after Parse, Describe, Flush the reading stops at the last reply, whatever happens |
| Connection.EarlyStopLeavesUnmarked | pkg/pgfox/query.go:858-891 | after Parse, Describe, shared Parse, Flush an acknowledgement stays unread: the statement is held and not recorded |
| Connection.BareFlushBlocks | pkg/pgfox/query.go:858-891 | after Parse and Flush alone the reading never ends |
| Custody.ExactlyOnePlace | pkg/pgfox/backend.go:253-296 | idle entries, entries waiting to be closed and holders of a connection add up to one, or to none for a connection dropped by a closed client |
| Custody.OpenMoves | pkg/pgfox/target.go:874-905 | a new connection is idle if the queue has room and otherwise not the pool's; nothing else moves |
| Custody.BorrowMoves | pkg/pgfox/pool.go:85-139 | the head of the queue goes to that client and to nobody else; nothing else moves |
| Custody.ReturnMoves | pkg/pgfox/backend.go:279-296 | a connection given back is idle if the queue has room and waits to be closed otherwise; nothing else moves |
| Custody.ReleaseMoves | pkg/pgfox/backend.go:253-266 | a released connection waits to be closed and nobody has it; nothing else moves |
| Custody.EvictMoves | pkg/pgfox/target.go:665-698 | exactly the over-age idle connections leave the pool |
| Custody.BorrowKeeps | pkg/pgfox/pool.go:85-139 | borrowing keeps exclusive ownership |
| Custody.ReturnKeepsIff | pkg/pgfox/backend.go:279-296 | returning keeps it if and only if the client is not pinned to the connection it gives back |
| Custody.ReleaseKeeps | pkg/pgfox/backend.go:253-266 | releasing keeps it and takes the connection out of the client's hands |
| Custody.ReconcileKeepsIff | pkg/pgfox/query.go:798-853 | reconciling keeps it if and only if it is not a lost reply of a client pinned by named statements |
| Custody.OtherPinsStay | pkg/pgfox/query.go:798-853 | no step on one client's backend moves another client's pin |
| Custody.OpenKeeps | pkg/pgfox/target.go:874-905 | opening a connection keeps exclusive ownership |
| Custody.CloseKeeps | pkg/pgfox/target.go:493-503 | closing a released connection keeps it |
| Custody.ShrinkKeeps | pkg/pgfox/target.go:910-927 | closing an idle connection keeps it |
| Custody.EvictKeeps | pkg/pgfox/target.go:665-698 | the health check keeps it |
| Custody.DropKeeps | pkg/pgfox/client.go:103-113 | closing a client's socket keeps it and forgets the client's pin; it loses a connection if and only if the client is pinned to one that it is not working on |
| Multiplexer.AskKeeps | pkg/pgfox/query.go:508-600 | a simple query, plain or through the cache, keeps ownership and the pointers of all clients |
| Multiplexer.NotifyKeeps | pkg/pgfox/listen_notify.go:578-612 | so does a NOTIFY on a second connection |
| Multiplexer.SendKeeps | pkg/pgfox/query.go:303-422 | so does a pipeline, deployed or refused |
| Multiplexer.FinishKeeps | pkg/pgfox/query.go:425-449 | so does reading its replies |
| Multiplexer.LeaveKeeps | pkg/pgfox/server.go:205-229 | so does a disconnect |
| Multiplexer.OwnedStep | pkg/pgfox/query.go:94-449 | every step but one keeps ownership |
| Multiplexer.StaysIntactIff | pkg/pgfox/query.go:798-853 | a step keeps every connection in one place if and only if it is neither that one nor the lost monitor of a client pinned to a backend it is not working on |
| Multiplexer.LosingPinnedBreaksOwnership | pkg/pgfox/query.go:843-851 | the first of them puts a connection in the queue while its client still points to it |
| Multiplexer.StrandedPinIsNowhere | pkg/pgfox/listen_notify.go:303-315 | the second leaves a connection that the pool owns, that is idle nowhere, waits nowhere and is held by nobody |
| Runs.OwnedRun | pkg/pgfox/query.go:798-853 | over every run without that step, from any owned state, ownership is kept |
| Runs.EveryConnectionInOnePlace | pkg/pgfox/query.go:798-853 | over every run without either step, every connection is in exactly one place, once |
| Runs.EveryConnectionAccountedFor | pkg/pgfox/listen_notify.go:303-315 | with lost monitors allowed: every connection is in exactly one place, or was dropped by one and is in none |
| Runs.QueueFits | pkg/pgfox/backend.go:279-296 | over every run no more connections are idle than the queue has places |
| Runs.SentIsServed | pkg/pgfox/query.go:520-569 | what a step sends is served on the backend the other results speak of, on no other one, and the client waits for it there |
| Runs.StatusSetsFlag | pkg/pgfox/query.go:807-841 | after reading the replies to a query or to a pipeline with Sync the client is in a transaction if and only if the first ReadyForQuery said T or E, and is then pinned to the backend that said so; otherwise it is pinned there exactly if it has named statements |
| Runs.OwnBackendOnly | pkg/pgfox/query.go:520-569 | inside a transaction a client's messages go to its backend and nobody else's do |
| Runs.TransactionStays | pkg/pgfox/query.go:807-841 | a transaction stays on its backend through every step but ReadyForQuery with status I, a failure of its client or its leaving |
| Runs.TransactionAffinity | pkg/pgfox/query.go:807-841 | over whole runs, from the moment a backend has said T or E to a client and until a step of that client ends the transaction: all its messages, NOTIFY included, and nobody else's, reach that backend |
| Runs.OwnParsePins | pkg/pgfox/query.go:798-841 | a pipeline that parses a statement that cannot be shared pins its client to the backend it goes to |
| Runs.PinStays | pkg/pgfox/query.go:796-797 | the pin stays through every step but ReadyForQuery with status I for a client without named statements of its own, a failure or leaving |
| Runs.NamedStatementAffinity | pkg/pgfox/query.go:796-797 | over whole runs, as long as that does not happen: all queries and pipelines of the client, and nothing of anybody else, reach the backend that it is pinned to |
| Runs.PidsDiffer | pkg/pgfox/startup.go:161-171 | cancel process ids are 32-bit integers, distinct below 2^32 logins, and zero for none of them |
| Runs.PidsWrap | pkg/pgfox/startup.go:161-171 | and repeat after that |
| Runs.KeyedStep | pkg/pgfox/startup.go:161-171 | the registry leads to the client with that process id; below 2^32 logins nobody is missing |
| Runs.CancelReachesOwnBackend | pkg/pgfox/startup.go:474-489 | a cancel lookup finds nothing, or a connection that only the client registered under that pid holds; below 2^32 logins it finds every busy client |
| Runs.LoginStays | pkg/pgfox/startup.go:161-172 | a client starts without names and outside a transaction, with the number and the secret of its login, and keeps these two |
| Runs.CancelHasLoginSecret | pkg/pgfox/startup.go:474-489 | a cancel request that finds a backend has the process id and the secret of the last login of the client that holds it |
| Upkeep.QueryIsHeld | pkg/pgfox/query.go:904-936 | a simple query keeps what is asked of its connection, for either concern |
| Upkeep.CachedIsHeld | pkg/pgfox/query.go:727-790 | so does the cached path; reading its replies makes the record exact |
| Upkeep.PipelineIsHeld | pkg/pgfox/query.go:335-449 | so does a pipeline, under the hypotheses of the one concern |
| Upkeep.NeededIsRegistered | pkg/pgfox/query.go:357-365 | every statement that a Bind needs is in the registry: the lookup never comes back empty |
| Guarantees.TendedStep | pkg/pgfox/query.go:94-449 | for either concern: every step that meets its hypotheses keeps every idle and every held connection as it should be |
| Guarantees.TendedRun | pkg/pgfox/query.go:94-449 | and so does every run of such steps |
| Guarantees.LoseTendsIff | pkg/pgfox/query.go:843-851 | for either concern: a lost reply keeps every connection as it should be if and only if it does no harm (released; or no pin left behind and the connection in order when it goes to the queue) |
| Guarantees.LostReplyIsCleanIff | pkg/pgfox/query.go:469-475 | a reply lost on the extended or cached path puts the backend in the queue, and it is clean there if and only if nothing was left to read and the session is idle, not discarding and without statements of the client's own |
| Guarantees.CutOffReplyIsQueued | pkg/pgfox/query.go:843-851 | cut off before the end, it leaves unread replies for the next client |
| Guarantees.QueueIsClean | pkg/pgfox/backend.go:279-296 | an idle connection has status I, is not discarding, has no unread reply and no private statement, over every run in which no Close harms the count, no NOTIFY opens a transaction and no lost reply does harm |
| Guarantees.FlagIsSession | pkg/pgfox/query.go:807-841 | over the same runs, when the replies to a query or to a pipeline with Sync have been read, the client's transaction flag is set if and only if the session of its backend is in a block, and then it is pinned there |
| Guarantees.RecordIsExact | pkg/pgfox/backend.go:299-306 | for one hash: a connection at rest holds the statement if and only if it is recorded, over every run in which no Parse of a client's own stands before the first one of that hash where it is not yet deployed, nothing stands between the first Describe and a Flush, and no lost reply does harm |
| Guarantees.NoParseTwice | pkg/pgfox/query.go:397-415 | over the same runs no Parse of that hash is sent, by deployment or by forwarding, to a backend that holds the statement |
| Namespaces.StatementIsItsName | pkg/pgfox/query.go:163-190 | for each hash: over every run in which nobody parses a text with that hash, under a name, with extracted values, every backend that holds the statement holds the canonical text |
| Namespaces.NameStaysTrueThroughout | pkg/pgfox/query.go:192-198 | for each client, name and hash: over every run in which that client takes care of that one name it stands for the text last parsed under it |
| Namespaces.RegistryIsComplete | pkg/pgfox/query.go:357-365 | over every run, without hypotheses, the registry lookup for a statement to deploy never comes back empty |
| Namespaces.SentUnlessRefused | pkg/pgfox/query.go:335-422 | over every run a pipeline is refused exactly when a deployment fails, and its backend is then left to be closed; otherwise its renamed messages are delivered and the client waits |
| Namespaces.PlainAskAnswers | pkg/pgfox/query.go:520-569 | a query of a pinned client, or one that cannot be parameterized, is answered by its backend as it is |
| Namespaces.CachedAskAnswers | pkg/pgfox/query.go:610-712 | over whole runs, on whatever connection the queue gives: a parameterizable query served from the cache has the answer of the plain query if and only if no commit is refused |
| Namespaces.NamesArePrivate | pkg/pgfox/query.go:129-243 | for one hash and one name of one client, over runs that keep the record right about that hash: a Bind or a Describe of the name that is reached and acceptable, on whatever backend, is served by the text of the client's latest Parse, or fails, the latter exactly when its statement is missing |
| Engine.Client.RewriteMessage | pkg/pgfox/query.go:129-243 | one message of phase 1, on the client's own map and count |
| Engine.Client.RewritePipeline | pkg/pgfox/query.go:129-243 | the loop rewrites the pipeline in place as specified and collects the bound hashes |
| Engine.ForwardPipeline | pkg/pgfox/query.go:393-422 | the loop forwards, skips and answers as specified, and collects the sent hashes in order |
| Engine.ParsesAreAnswered | pkg/pgfox/query.go:397-422 | of every Parse the client is told once: as many acknowledgements as Parses when nothing fails, and never more |
| Engine.SendPipeline | pkg/pgfox/query.go:94-422 | the phases in sequence leave the backend as the delivery of the step system says, or report a failed deployment |
| Engine.FinishPipeline | pkg/pgfox/query.go:424-434 | after Sync, reading and reconciling leave backend, pointers and transaction flag as the step that reads replies says, for every status and every lost reply |
| Engine.InjectMissing | pkg/pgfox/query.go:335-391 | the loop deploys the missing hashes in some order, as specified for that order |
| Engine.InjectStatement | pkg/pgfox/query.go:366-390 | one Parse and Sync, read to ReadyForQuery or to an error |
| Engine.ForwardReplies | pkg/pgfox/query.go:460-504 | the loop passes on the replies up to the end of the answer or a failed read, and marks by parseIdx as specified |
| Engine.ForwardPrepared | pkg/pgfox/query.go:727-790 | the same for the cached path, without the replies a simple query does not have |
| Engine.BorrowConn | pkg/pgfox/pool.go:85-105 | the head of the queue, when there is one |
| Engine.ReturnBackend | pkg/pgfox/backend.go:279-296 | the fields end up as the specification of Return says |
| Engine.ReleaseBackend | pkg/pgfox/backend.go:253-266 | the fields end up as the specification of Release says, also for a second backend while the client is pinned to another; the pinned client leaves its transaction |
| Engine.ReconcileConn | pkg/pgfox/query.go:798-853 | the fields end up as the specification of reconciling says, for every status; the transaction flag is set exactly for status T and E |
| TargetManager.RemoveFromAll | pkg/pgfox/pool.go:61-68 | swap-removal takes out exactly the given connection |
| TargetManager.PruneKeepsWindow | pkg/pgfox/target.go:539-544 | with stamps that do not go back the samples kept are those of the window |
| TargetManager.PeakOfWindow | pkg/pgfox/target.go:534-551 | the high-water mark is 1 or the peak in use over the window |
| TargetManager.ContendedIsNoDonor | pkg/pgfox/target.go:553-575 | a pool in need has no excess: the two lists are disjoint |
| TargetManager.NeedyAndDonorsIff | pkg/pgfox/target.go:553-575 | a pool is served if and only if none of its connections is idle, and can give some away if and only if more are idle than the high-water mark and one |
| TargetManager.ActiveIsOut | pkg/pgfox/pool.go:147-154 | the connections in use, by the counters, are those that clients have and those that wait to be closed |
| TargetManager.Target.StorePool | pkg/pgfox/target.go:146-149 | a new pool owns nothing; the count stays |
| TargetManager.Target.OpenPrivileged | pkg/pgfox/target.go:446-489 | the privileged connection is counted |
| TargetManager.Target.BorrowConn | pkg/pgfox/pool.go:85-105 | the head of a queue is checked out; the count stays |
| TargetManager.Target.ReturnConn | pkg/pgfox/backend.go:279-296 | a connection that is checked out goes back to the queue, or to the ones to close when the queue is full; the count stays |
| TargetManager.Target.ReleaseConn | pkg/pgfox/backend.go:253-266 | a connection that is checked out goes to the ones to close; the count stays |
| TargetManager.Target.OpenOne | pkg/pgfox/target.go:874-905 | a new connection is owned and idle, the count follows, the mirror of the count does not |
| TargetManager.Target.CloseOneIdle | pkg/pgfox/target.go:910-927 | the head of the queue is closed and no longer owned; the count follows |
| TargetManager.Target.HandleClose | pkg/pgfox/target.go:493-503 | a released connection is no longer owned; the count follows |
| TargetManager.Target.SamplePools | pkg/pgfox/target.go:534-563 | every pool gets its sample and loses those before the window |
| TargetManager.Target.RecycleSlot | pkg/pgfox/target.go:583-601 | a slot is recycled if and only if the first donor that is not the pool in need has an idle connection, and that donor gives the one idle longest |
| TargetManager.Target.GrowContended | pkg/pgfox/target.go:577-609 | the pools in need are served in order until the limit: each gains exactly one connection if it can be opened and there is room, and for each served pool a donor, the first ones first, gives its longest idle connection as long as one has some to spare; nobody is served exactly when nobody is in need or the limit is reached |
| TargetManager.Target.GrowthCycle | pkg/pgfox/target.go:508-616 | the same for the whole cycle after the sampling; with nobody in need every pool with more idle than the high-water mark and one gives exactly one and the others are unchanged; a pool gains one at most, and only when nothing in it was idle; one that loses connections keeps at least the high-water mark and one idle; the count is conserved |
| TargetManager.Target.CheckPrivileged | pkg/pgfox/target.go:638-662 | the privileged connection is replaced when it does not answer; the count follows |
| TargetManager.Target.ReapPool | pkg/pgfox/target.go:669-697 | exactly the over-age idle connections go, the rest keep their order |
| TargetManager.ReapEnds | pkg/pgfox/target.go:669-697 | what that means at the end of a queue: the over-age ones are out of the pool, the others idle in order |
| TargetManager.Target.HealthCheck | pkg/pgfox/target.go:632-699 | the same over all pools |
| TargetManager.Target.Drain | pkg/pgfox/target.go:832-870 | afterwards the count is the number of connections still checked out |
| TargetManager.OutIsLeft | pkg/pgfox/target.go:832-870 | owned less waiting less idle is checked out |
| Notifications.Server.GetOrCreateListen | pkg/pgfox/listen_notify.go:177-249 | joins or creates the monitor of a channel |
| Notifications.Server.RemoveClientFromListen | pkg/pgfox/listen_notify.go:256-273 | leaves a monitor and removes it when empty |
| Notifications.Server.HandleAction | pkg/pgfox/listen_notify.go:420-504 | immediate outside a transaction, buffered inside, refused in a failed one; what the monitors then give the client is PostgreSQL's rule for that action, in particular nothing after UNLISTEN * outside a transaction |
| Notifications.Server.ResolvePendingListens | pkg/pgfox/listen_notify.go:544-575 | after COMMIT the client hears exactly the channels whose last LISTEN in the buffer no UNLISTEN and no UNLISTEN * follows and those it had that none ends, a LISTEN without a monitor passed over; otherwise nothing changes |
| Notifications.Server.CleanupClientListeners | pkg/pgfox/listen_notify.go:381-386 | after a disconnect no monitor mentions the client |
| Notifications.Server.FailListen | pkg/pgfox/listen_notify.go:303-315 | a lost monitor leaves the channel sets of all its clients, and exactly those clients are closed and lose their pin |
| Notifications.Server.Disconnect | pkg/pgfox/server.go:205-229 | no monitor mentions the client; a backend is released if and only if the client still points to it, which a client closed by a lost monitor does not |
| Notifications.ApplyAllIff | pkg/pgfox/listen_notify.go:557-575 | performing actions one after the other leaves a channel subscribed if and only if its last LISTEN is followed by no UNLISTEN of it and no UNLISTEN *, or it was subscribed and there is no such action |
| Notifications.StepIsFaithful | pkg/pgfox/client.go:334-345 | one statement keeps the buffer equal to what separates committed from pending subscriptions, and changes no subscription inside a transaction |
| Notifications.DeferredListenIsTransactional | pkg/pgfox/listen_notify.go:544-575 | over every history of single statements, failing ones and failing COMMITs included, the subscriptions are those of PostgreSQL, which keeps what a transaction asks for and at COMMIT goes by the last LISTEN and UNLISTEN of each channel |
| Notifications.CommitAppliesInOrder | pkg/pgfox/listen_notify.go:557-575 | COMMIT leaves the client subscribed to exactly the channels of that rule, ROLLBACK to those it had |
| Notifications.ChainedCommitIsMissedIff | pkg/pgfox/query.go:807-816 | COMMIT AND CHAIN is missed if and only if the buffer would change something |
| Notifications.ChainedRollbackKeepsIff | pkg/pgfox/query.go:807-816 | in a failed block COMMIT AND CHAIN leaves the buffer of what was rolled back, and the next COMMIT applies it, which shows unless it changes nothing |
| Notifications.LostTransactionIff | pkg/pgfox/query.go:469-475 | after a connection lost in a transaction and any LISTEN, UNLISTEN and NOTIFY outside a block, the next transaction gives the subscriptions of PostgreSQL's rule, when it commits, if and only if applying the left-over buffer first makes no difference, otherwise if and only if they were right before |
| Notifications.LossShowsIff | pkg/pgfox/listen_notify.go:420-504 | before that, what the client listens to is PostgreSQL's if and only if its LISTEN and UNLISTEN before its first NOTIFY make no difference |
| Notifications.LossResolvedIff | pkg/pgfox/listen_notify.go:544-575 | the first other statement outside a block puts everything right under the same condition, a COMMIT if and only if applying the left-over buffer makes no difference |
| Notifications.NoticeKeepsTheBuffer | pkg/pgfox/listen_notify.go:578-612 | a NOTIFY outside a block leaves the buffer for the next commit |
| Notifications.LostTransactionStillListens | pkg/pgfox/query.go:469-475 | for instance the next commit subscribes to a channel of the lost transaction |

## Left out

- Sockets, TLS, certificates, SCRAM, deadlines, timers, logging, metrics, configuration and reload: input and output, or
  plumbing. Time appears only as the stamps of peak samples and as the set of over-age connections.
- Wake-up order and liveness of waiting borrowers; only that a connection is handed out once.
- Several targets and pools at once in the step system: one pool stands for the pool of a database and user. The
  budget over several pools is in TargetManager.
- Concurrency inside a step: the goroutine of one client runs a step without interruption by another step on the same
  objects; steps of different clients interleave freely between sending and reading.
- The server answers a pipeline when it is sent, and the replies wait to be read; a backend is not shared in between.
- COPY, DEALLOCATE, DISCARD, SQL-level PREPARE, multi-statement simple queries, client names that start with pfx_, and
  parameter types in Parse: outside what the multiplexer tracks.
- LISTEN, UNLISTEN and NOTIFY sent through the extended protocol: fixed reply scripts.
- Savepoint-level rollback of LISTEN, failed fan-out writes, how a monitor reconnects (that it fails for good is a step
  of Multiplexer and FailListen of Notifications), the race between monitor lookup and
  registration, the unread isListening flag, and the text extraction of channel names.
- Statement trees: common table expressions, ORDER BY, DISTINCT ON, RETURNING and the other parts the walk never visits are printed
  but never collected; window clauses and locking clauses are not in the tree. The check for parameters already in the
  text is not modelled: the trees have none.
- Counters that are not exact in the code: deployment counts of cached statements and the count of open monitors.
- Pools in TargetManager are values in a field of the target, and the channel of connections to close is kept per pool;
  the order of that channel does not matter to the results.
- Monitors in Notifications are sets of clients in a field of the server; their backend connection is not modelled.
- Engine.Client.RewritePipeline: models a fresh copy of the pipeline; the code reslices a pooled buffer whose capacity must
  suffice.
- Engine.SendPipeline: from the rewriting to the last message sent, on a backend that the client has; borrowing and pinning come
  before it in the code and are steps of Multiplexer, as are the answers after a Flush.
- Engine.ReconcileConn: states the effect on one client, its backend and the pool; what other clients hold is in Multiplexer.
- Multiplexer.FinishKeeps: the backend a cancel request finds is published from sending to reading, a little longer than in
  the code.
- SqlTree.TreeRewriteAgrees: for trees in which every visited sub-select is collected in text order (SelectOrder has the
  exact condition for one), printed with one blank between tokens, no doubled quotes inside quoted names, no dollar sign in
  words and no negative constants.
- SqlText.TextRewriteIffNoShadow: the same printed form: one blank between tokens, no doubled quotes inside quoted names, no
  dollar sign in words, and literals that the scanner can read back.
