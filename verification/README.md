# A verified model of the Figma bridge

The repository connects a Figma plugin to tool clients through a local broker. This
project models the parts of it whose behaviour is carried by mutable state, and proves
what each of them is for.

- `Visibility.dfy`, `Walk.dfy`, `Places.dfy`: the document as the plugin reads it, the
  ancestor walk that decides whether a node draws, and the cycle-cut preorder every read
  shares, once as an explicit stack and once as a recursion; and which places that
  preorder lists, said of the child lists alone.
- `Base64.dfy`, `Base64Bits.dfy`: base64 both ways, and in the letters and bits of its
  standard.
- `Search.dfy`, `SearchPlaces.dfy`, `Cursors.dfy`: paged search. A page ends in a cursor;
  the next call rebuilds the whole stack from the path in it. Paging is shown to lose and
  repeat nothing, against the stack's run and against the places of the document. What a
  cursor is made of, which searches share its key, and how long it gets are in the last of
  these.
- `Serialize.dfy`, `Attempts.dfy`, `ForestWalk.dfy`, `WalkPlaces.dfy`, `Checkers.dfy`: the
  bounded serializer with its two-level truncation verdict, its output read back node by
  node, the forest walker, and the three independent re-checks of a node forest.
- `Variables.dfy`: the memoised alias resolver against plain chain-following.
- `Queue.dfy`, `Pending.dfy`, `Broker.dfy`, `Delivery.dfy`, `Deadlines.dfy`,
  `Abandonment.dfy`, `Reuse.dfy`: the broker's admission queue and pending map as objects,
  the whole protocol around them as a state machine with one atomic step per lock region of
  `invoke`, `cancel`, dispatch, responses, expiry and socket cleanup; who may call and what
  becomes of a cancel, when a request times out, the one way a live ticket loses its place
  in the queue, and what a request id used again does to the wire.
- `Handover.dfy`: installing a backend while calls wait for one.
- `Supervisor.dfy`: how fast a process may cycle through roles that keep dying.
- `Transport.dfy`, `Hellos.dfy`: the plugin's one socket, its request owners and its
  reconnect timer, and how a socket is greeted and proves itself.
- `Css.dfy`, `CssKinds.dfy`: the CSS scanner, and which token starts where.
- `Screenshots.dfy`: fitting images into one tool result.
- `Common.dfy`: values and limits shared by all of these.

Loops and objects of the source are Dafny methods and classes, each proved equal to a
function on values; what the source promises is then proved of that function. The
concurrent parts are state machines over steps, and their theorems are about every run.

`dafny verify dfyconfig.toml` checks the project.

## Where the code is weaker than one might expect

- A 64-bit ticket counter saturates instead of wrapping. First-in-first-out, unique ids and
  the slot counts hold exactly until its last value is given out a second time
  (`Queue.EveryRunIsOrderly`, `Queue.OrderLastsAsLongAsIds`, `Queue.SaturatedIdsCollide`),
  which a long enough run does (`Queue.SaturationIsReached`); the claims about broker runs
  are about counters that have not saturated.
- The cycle guard skips nodes with a blank id. The walk of a document is infinite exactly
  when it comes to a node with a blank id that is its own descendant through drawn children
  with blank ids (`Walk.InfiniteExactlyWithBlankLoop`); the parent links must then disagree
  with the child links (`Walk.AgreeingDocumentsUnfold`), as in `Walk.SelfListedLoops`.
  An untruncated session over such a document never comes to a last page
  (`Search.PagingEndsUnlessBlankLoop`), and over the self-listing one there are sessions of
  every length (`Search.SessionsOfEveryLength`); where nothing matches, one truncated page
  without a cursor is all there is (`Search.EndlessSearchWithoutMatches`).
- Component dedupe goes by id. A component cut for repeating the id of a node above it is
  not remembered, so where one id names a frame and a component under it, the next
  component of that id is written in full again (`Attempts.ACutComponentIsWrittenAgain`);
  where no id names both, a stub always stands for a component written out before
  (`Attempts.StubExactlyWhenWrittenBefore`).
- A cursor is bound to its search by a key that holds the whole type list, and the input
  parsers refuse a cursor over 64 KiB. They accept one the search made exactly when its
  key, path and id take at most 48 KiB less 47 bytes as JSON (`Cursors.OwnCursorFits`).
  Two hundred type names of 256 bytes are within the parsers' own bounds and take more, so
  every cursor of such a search is refused (`Cursors.EveryCursorIsRefused`), the one its
  first page names included (`Cursors.FirstPageNamesARefusedCursor`).
- A dispatch task asks only whether something is pending under its request id. A call that
  was answered before it was dispatched is still sent if and only if its id is pending
  again when its turn comes (`Reuse.AnsweredCallsAreSentExactlyOnReuse`), and so the plugin
  can get one id twice (`Reuse.AReusedIdIsSentTwice`). With unique ids neither happens
  (`Broker.EveryRunOrdersTheWire`, `Broker.AnsweredFirstIsNeverSent`).
- A call that has let go of its dispatch receiver but not yet of its ticket loses its place
  in the queue when a promotion reaches it, while the ticket is still live
  (`Abandonment.ALiveTicketCanLoseItsPlace`); nothing else puts a live ticket out of its
  queue (`Abandonment.EveryRunDropsExactlyTheAbandoned`).
- A screenshot batch whose every image had room when it was placed can still be refused as
  a whole (`Screenshots.LaterErrorsCanSinkTheBatch`, `Screenshots.TwoPicturesFillTheEnvelope`):
  exactly when the error entries after its last image cost more than the room left
  (`Screenshots.RefusedExactlyByItsTail`).
- A CSS comment that is never closed ends one code unit before the end of the input, and
  that unit is read as a token of its own. Only where the input ends right after the
  opening mark does the comment end with it and leave no unit over (`Css.CommentMeaning`).
- The final size check of a validated raster can never fail
  (`Base64.EncodeValidatedRaster`).

## Model

| member | source | states |
|---|---|---|
| `Visibility.VisibilityOf` | plugin/src/read/visibility.ts:76-100 | for every parent graph, cyclic ones included, the walk with its late-started seen-set gives the verdict of the plain 1024-step walk without it |
| `Visibility.VerdictMeaning` | plugin/src/read/visibility.ts:65-100 | renders / hidden / undetermined, each characterised by the first value on the parent chain that is not switched on, and whether it comes within the bound (three if-and-only-ifs) |
| `Visibility.RevisitStaysOn` | plugin/src/read/visibility.ts:89-96 | a revisited ancestor proves the rest of the chain periodic and free of hidden nodes, for any number of steps |
| `Walk.VisibleOnlyMeaning` | plugin/src/read/search.ts:317-322 | the child filter keeps every child that draws as often as it is listed and no other, and works child by child, so their order stays |
| `Walk.PreorderIsPopped` | plugin/src/read/search.ts:361-374 | the explicit stack pops exactly the recursive cycle-cut preorder of its top item and is left with what was under it |
| `Walk.PopsAgree` | plugin/src/read/search.ts:400-432 | the stack machine is deterministic: a shorter run from a stack is a prefix of a longer one, which continues from where it stopped |
| `Walk.EndedRunUnfolds` | plugin/src/read/search.ts:400-432 | a run that empties the stack bounds the depth of everything that was on it, so only finite unfoldings are ever finished |
| `Walk.NamedDocumentsUnfold` | plugin/src/read/search.ts:361-366 | on a document whose nodes with visible children have ids, the cycle-cut unfolding is finite whatever the child links do, its depth bounded by the number of ids |
| `Walk.AgreeingDocumentsUnfold` | plugin/src/read/visibility.ts:76-100 | where every listed child's parent link leads back to the node that lists it, the walk is finite whatever the ids: a chain of drawn nodes is never longer than the 1024-step ancestor walk that lets them draw |
| `Walk.InfiniteExactlyWithBlankLoop` | plugin/src/read/search.ts:361-374 | the walk of a document is infinite if and only if an un-cut descent reaches a node with a blank id that is its own descendant through drawn children with blank ids; a finite one is bounded by the document's size |
| `Walk.SelfListedLoops` | plugin/src/read/search.ts:317-366 | a document whose one node has a blank id, lists itself and has its parent link elsewhere is such a case: the visibility filter keeps the child |
| `Places.PreorderListsPlaces` | plugin/src/read/search.ts:361-374 | what a finite walk lists, without naming the guard: the paths of its items rise in document order, and they are exactly the index paths that can be followed through the child lists leaving no two nodes of one non-empty id |
| `Places.RisingIsDetermined` | plugin/src/read/search.ts:361-374 | two lists that rise in document order and hold the same paths are equal, so that description leaves no choice |
| `Places.FiniteExactlyWithBoundedPlaces` | plugin/src/read/search.ts:361-374 | the walk is finite, to a given depth, if and only if no such path is longer |
| `Places.DescentsArePlaces` | plugin/src/read/search.ts:361-374 | what the guarded recursion can descend to are exactly those paths, also below a start that has ancestors |
| `Places.DrawnChildrenAreListed` | plugin/src/read/search.ts:317-322 | the child list a walk is offered picks, in order, exactly the listed children that draw |
| `Places.DrawsMeaning` | plugin/src/read/visibility.ts:65-100 | a node draws if and only if within 1024 steps up its parent links leave the document with nothing switched off on the way |
| `Places.DeepPlacesExactlyWithBlankLoop` | plugin/src/read/search.ts:361-374 | a document has places of every depth if and only if from one of them a way leads back to the same node through nodes with blank ids only; else their depth is bounded |
| `Base64.EncodeBase64` | plugin/src/ui/raster.ts:47-67 | the loop writes the padded encoding specified group by group |
| `Base64.DecodeBase64` | plugin/src/ui/raster.ts:69-121 | two passes over the text and writes into a fixed buffer give the specified decoding for every text, pads in odd places included; no write leaves the buffer |
| `Base64.WritesFit` | plugin/src/ui/raster.ts:89-119 | the bytes written for any number of groups never exceed the buffer sized from the length and the last two letters alone |
| `Base64.RoundTrip` | plugin/src/ui/raster.ts:47-121 | decoding any text whose non-blank letters are the encoding of a byte string gives that byte string back (section 4 of RFC 4648) |
| `Base64.WhitespaceIsDropped` | plugin/src/ui/raster.ts:71-77 | a tab, line feed, carriage return or space inserted anywhere does not change what the decoder keeps |
| `Base64.EncodingIsClean` | plugin/src/ui/raster.ts:47-88 | an encoding holds nothing the decoder skips or cuts to a byte |
| `Base64.DecodedLenIsByteCount` | crates/tools/src/contracts/visual.rs:178-185 | the length reported for an encoding is the byte count, up to the 32-bit ceiling |
| `Base64.EncodeValidatedRaster` | plugin/src/ui/raster.ts:209-241 | succeeds exactly for bytes within 12 MiB with acceptable dimensions; the result decodes to the bytes and never trips the 16 MiB check; which error code is given, if any |
| `Base64.EncodeBase64Url` | plugin/src/read/search.ts:237-251 | the unpadded loop writes the specified URL-safe encoding |
| `Base64.DecodeBase64Url` | plugin/src/read/search.ts:253-272 | the decoding loop agrees with its specification, refusing empty text, foreign letters and a length of 1 modulo 4 |
| `Base64.UrlRoundTrip` | plugin/src/read/search.ts:220-272 | every non-empty byte string reads back from its URL-safe encoding (section 5 of RFC 4648) |
| `Base64Bits.AlphabetsAreTheStandards` | plugin/src/read/search.ts:222-223 | each value has its letter of the standard and of the URL-safe alphabet, and nothing else is one |
| `Base64Bits.EncodingMeaning` | plugin/src/ui/raster.ts:47-67 | group by group, an encoding is the letters of the four values whose twenty-four bits are those of the three bytes, with a pad for each missing byte |
| `Base64Bits.UrlEncodingMeaning` | plugin/src/read/search.ts:237-251 | the URL-safe form is the same letters without the pads |
| `Base64Bits.KeptMeaning` | plugin/src/ui/raster.ts:69-85 | the decoder keeps every unit but tabs, line feeds, carriage returns and spaces, in order, cut to a byte |
| `Base64Bits.DecodesExactly` | plugin/src/ui/raster.ts:77-107 | a text decodes if and only if its kept units come in fours and each is a letter or a pad, wherever the pads stand |
| `Base64Bits.GroupMeaning` | plugin/src/ui/raster.ts:102-119 | a group of four adds the first byte of its bits, the second unless its third unit is a pad, and the third unless its fourth is |
| `Base64Bits.BufferMeaning` | plugin/src/ui/raster.ts:86-121 | what is decoded is those bytes and then zeros, three bytes to a group less one for each pad among the last two units |
| `Search.MatchReasons` | plugin/src/read/search.ts:154-176 | a node matches exactly when every filter given agrees with it; the reasons listed are exactly those that hold, each once and in the fixed order |
| `Search.Base64CursorsRoundTrip` | plugin/src/read/search.ts:279-311 | where JSON reads back what it wrote, a cursor whose path indices are safe integers reads back from its URL-safe text |
| `Search.SpineIsSafe` | plugin/src/read/search.ts:296-302 | every path the descent can follow through array child lists is made of safe integers, so no cursor the search writes is refused for its indices |
| `Search.CursorsBindTheirKey` | plugin/src/read/search.ts:291-295 | a cursor is accepted with its payload by a search with the same key and refused by every other |
| `Search.InitialStack` | plugin/src/read/search.ts:324-359 | the descent along a cursor path builds the specified stack, or fails exactly when an index or the final id does not fit |
| `Search.PushChildren` | plugin/src/read/search.ts:361-374 | one step of the stack machine, cycle cut included |
| `Search.ResumeIsExact` | plugin/src/read/search.ts:324-374 | for every item popped in any uninterrupted run, the cursor made from it rebuilds that run's stack exactly: nodes, paths, ancestor sets and order |
| `Search.LowerPartIsSpine` | plugin/src/read/search.ts:340-346 | what lies under the top of a rebuilt stack is itself the stack its own top's path stands for |
| `Search.RunPage` | plugin/src/read/search.ts:389-441 | which nodes a page looked at, which matches it reports, its visit count and byte total, and which of the four ways it stopped, with truncation and cursor to match |
| `Search.PageIsDetermined` | plugin/src/read/search.ts:400-432 | that description leaves no choice: from one stack there is exactly one page, one run and one way to stop |
| `Search.SearchNodes` | plugin/src/read/search.ts:376-442 | a call fails with an invalid cursor exactly when parsing or the descent does, and otherwise answers with such a page |
| `Search.SessionFollowsRun` | plugin/src/read/search.ts:376-442 | a session of untruncated pages follows one uninterrupted run: after its pages exactly the matches among the nodes popped so far have been returned |
| `Search.PagingIsLossless` | plugin/src/read/search.ts:376-442 | following the cursors to the end returns exactly the ids and reasons of the matching nodes of the visible cycle-cut preorder, in order, each once |
| `Search.PagingEnds` | plugin/src/read/search.ts:425-430 | a session has at most one page more than there are matches, and every cursor it names is accepted by the next call of the search itself |
| `Search.AnySessionFollowsRun` | plugin/src/read/search.ts:376-442 | a session whose last page is truncated follows that run too: what it returned are the matches popped so far, all but the one that did not fit in the byte limit, if that is what ended it |
| `Search.EverySessionIsAPrefix` | plugin/src/read/search.ts:376-442 | so every session, truncated or broken off anywhere, has returned the first of the preorder's matches, in order |
| `Search.PagingOfNamedDocumentEnds` | plugin/src/read/search.ts:361-430 | so every session over a document whose enterable nodes have ids ends |
| `Search.PagingOfAgreeingDocumentEnds` | plugin/src/read/search.ts:361-430 | every session over a document whose parent links agree with its child links ends, blank ids or not |
| `Search.PagingEndsUnlessBlankLoop` | plugin/src/read/search.ts:361-430 | for every document: with a blank loop below the root every untruncated session's last page names another, and without one the number of pages is bounded |
| `Search.SessionsOfEveryLength` | plugin/src/read/search.ts:361-430 | over the self-listing document, searched for something it matches, there is an untruncated session of every length |
| `Search.EndlessSearchWithoutMatches` | plugin/src/read/search.ts:400-404 | where nothing matches, an endless walk gives one page instead: empty, truncated by the visit limit, and without a cursor |
| `SearchPlaces.PagingReturnsEveryMatchingPlace` | plugin/src/read/search.ts:376-442 | a finished untruncated session returns the id, name, type and reasons of the node at every place that matches, in document order, each once, and nothing else |
| `SearchPlaces.SessionsReturnTheFirstPlaces` | plugin/src/read/search.ts:376-442 | any other session over a finite walk has returned the first of those |
| `SearchPlaces.CursorsAreRefusedExactly` | plugin/src/read/search.ts:291-359 | a call is refused if and only if its cursor does not read back, has another search's key, follows an index that is not there, or ends at a node of another id; any other resumes at that node or past it |
| `SearchPlaces.QueryReasons` | plugin/src/read/search.ts:110-176 | what a query matches: the name, or the text of a text node, equal to it or containing it once the host has folded the case of both |
| `SearchPlaces.MatchesListTheirChildren` | plugin/src/read/search.ts:178-204 | each match of a page carries its node's id, name, type and reasons, and the non-empty ids of its drawn children in order, but for the match that reaches the limit, which lists none |
| `Cursors.KeysTellSearchesApart` | plugin/src/read/search.ts:206-220 | the JSON key of two searches is the same text if and only if they have the same scope, query, match mode and set of types |
| `Cursors.CursorsServeTheSameSearch` | plugin/src/read/search.ts:206-295 | so a cursor made by one search is accepted by another if and only if the other asks for the same |
| `Cursors.KeyLength` | plugin/src/read/search.ts:206-220 | how long a key is inside a cursor's JSON, in the lengths of its scope id, query and types, each escaped twice |
| `Cursors.CursorTextLength` | plugin/src/read/search.ts:279-289 | how long a cursor's JSON is, in the lengths of its key, path and id |
| `Cursors.OwnCursorFits` | plugin/src/shared/validation.ts:316-321 | the input parsers accept a cursor the search made if and only if its key, path and id take at most 48 KiB less the 47 bytes of JSON around them |
| `Cursors.EveryCursorIsRefused` | plugin/src/shared/validation.ts:142-321 | a request within every bound of the parsers, with a type list of 201 names of which 200 are of 256 bytes, all of whose cursors are over 64 KiB |
| `Cursors.FirstPageNamesARefusedCursor` | plugin/src/read/search.ts:376-442 | where its root is a frame and the limit is one match, its first page is untruncated and names such a cursor |
| `Serialize.VerdictOfMarks` | plugin/src/read/serialize.ts:893-910 | over any series of marks the document verdict is the first global budget among them, and the first mark when all are depth cuts |
| `Serialize.TruncationNamesTheFirstBudget` | plugin/src/read/serialize.ts:893-910 | so the reason a forest carries is the first global budget its run met, and a depth cut only when it met none |
| `Serialize.SerializerContext.MarkTruncated` | plugin/src/read/serialize.ts:898-910 | the update in place keeps the field equal to the verdict of every mark made so far |
| `Serialize.SerializerContext.SerializeNode` | plugin/src/read/serialize.ts:930-1059 | a node is refused if and only if some budget has no room for it when it is reached; otherwise its output is explained by the books of that moment: a stub exactly for a component already written, no children under itself or at the depth asked for, else as many visible children as had room when each was reached, and what is missing marked with the verdict of that moment; the books after it are those read off the output |
| `Serialize.SerializerContext.SerializeChildren` | plugin/src/read/serialize.ts:1040-1058 | the child loop ends with the children, or at the first that has no room when it is reached, and only there |
| `Serialize.SerializeNodeForest` | plugin/src/read/serialize.ts:1373-1409 | the same for the roots, from unspent budgets, with the verdict of every mark made on the way |
| `Serialize.ForestIsDetermined` | plugin/src/read/serialize.ts:1373-1409 | that description leaves no choice: given roots have exactly one such forest, marks and verdict included |
| `Serialize.ForestAccounts` | plugin/src/read/serialize.ts:937-1010 | nodes and bytes are charged exactly and no budget is passed; no visit is spent without a node, a cut or a missing root to show for it; the verdict is exactly as bad as the worst cut in the output, or global when a root is missing |
| `Serialize.NoCutIsWhole` | plugin/src/read/serialize.ts:1012-1057 | no recorded cut if and only if nothing is missing, at every node, but for stubs |
| `Serialize.UntruncatedIsComplete` | plugin/src/read/serialize.ts:1402-1408 | without component dedupe `truncated` is false if and only if the output is the whole visible unfolding of every root |
| `Serialize.UntruncatedIsCompleteButStubs` | plugin/src/read/serialize.ts:958-986 | with dedupe the same holds up to stubs, which are marked on their node but not in the document verdict |
| `Serialize.DepthLimitMeansOnlyDepth` | plugin/src/read/serialize.ts:893-910 | the document reason is `depthLimit` if and only if something is missing, every root is there, and every cut anywhere is a depth cut |
| `Serialize.LastingBudgetsKeepEveryRoot` | plugin/src/read/serialize.ts:937-1010 | while the budgets end with room for any one more node every root is there and every cut is a cycle or the depth asked for |
| `Serialize.HeightIsBounded` | plugin/src/read/serialize.ts:1029-1038 | no output tree is deeper than the depth asked for |
| `ForestWalk.WalkContext.TryReturn` | plugin/src/read/serialize.ts:1114-1133 | a payload is accepted exactly when both budgets allow it, and otherwise changes nothing but the verdict |
| `ForestWalk.WalkContext.WalkNode` | plugin/src/read/serialize.ts:1137-1169 | the recursion visits exactly what the stack machine pops, and stops only at a full budget |
| `ForestWalk.WalkNodeForest` | plugin/src/read/serialize.ts:1171-1190 | a finished walk is a run from the roots to its end, or to the point where a budget stopped it, with the count returned and the limit named fixed in each case; it always ends |
| `ForestWalk.WalkIsDetermined` | plugin/src/read/serialize.ts:1114-1190 | that description leaves no choice: the nodes seen and the result are the same in any two walks of it |
| `ForestWalk.LookingWalkIsPreorder` | plugin/src/read/serialize.ts:1137-1190 | with a visitor that returns nothing the walk sees exactly the first min(limit, N) nodes of the cycle-cut visible preorder of size N, and reports truncation if and only if N exceeds the limit |
| `ForestWalk.EndlessWalkIsTruncated` | plugin/src/read/serialize.ts:1145-1152 | on a forest that unfolds without end the walk spends every visit and reports it |
| `ForestWalk.EveryWalkIsAPrefix` | plugin/src/read/serialize.ts:1137-1190 | whatever the visitor returns, what it saw is a prefix of the preorder, all of it when nothing is reported truncated |
| `WalkPlaces.LookingWalkSeesPlaces` | plugin/src/read/serialize.ts:1137-1190 | a walk that only looks sees, root after root, exactly the nodes at the places below each, in document order, up to its visit limit, and is truncated if and only if there are more |
| `WalkPlaces.EveryWalkSeesPlaces` | plugin/src/read/serialize.ts:1114-1190 | any walk sees the first of them, and stops earlier only at an offer that does not fit |
| `Attempts.ForestReads` | plugin/src/read/serialize.ts:923-1059 | the forest read in the order it was written, with counts taken from the output alone: a node came out if and only if the attempts before it were fewer than the visits, the nodes before it fewer than the node limit and its bytes fit; it was cut for repeating an id above it, or for depth, exactly then and with that reason; a component was a stub exactly when one was due; and the verdict names the first budget among the cuts |
| `Attempts.StubExactlyWhenWrittenBefore` | plugin/src/read/serialize.ts:956-1028 | with dedupe, where no id names both a component and something else, a component with an id, not below a node of that id, is a stub if and only if a component of that id stands in full before it; without dedupe there are no stubs |
| `Attempts.ACutComponentIsWrittenAgain` | plugin/src/read/serialize.ts:1017-1028 | where one id does name both, a component cut for repeating a frame's id is not recorded, and the next of its id is written in full again |
| `ForestWalk.WalkGoesAsFarAsItCan` | plugin/src/read/serialize.ts:1114-1190 | with a visitor that offers payloads the walk stops at the first offer that does not fit, at the visit limit, or at the end, and nowhere earlier |
| `Checkers.ValidateNode` | crates/protocol/src/domain/common.rs:2645-2675 | accepts exactly when the running count plus the tree's size and the tree's depth are within bounds; the early check on the child count refuses nothing more |
| `Checkers.ValidateNodeRoots` | crates/protocol/src/domain/common.rs:2632-2643 | accepts exactly the forests of at most 2000 nodes and depth at most 6 |
| `Checkers.DecodeNode` | crates/protocol/src/domain/common.rs:2113-2137 | the streaming seed accepts exactly the trees that fit its remaining budget and depth, and leaves the budget less their size |
| `Checkers.DecodeList` | crates/protocol/src/domain/common.rs:2273-2301 | the bounded element loop with its one extra look accepts exactly the lists that fit |
| `Checkers.DecodeForest` | crates/protocol/src/domain/common.rs:2241-2253 | from a full budget, exactly the forests the constructor check accepts |
| `Checkers.ParseDesignNode` | plugin/src/shared/result-validation.ts:1174-1226 | the TypeScript parser's budget accepts exactly the same trees |
| `Checkers.ParseNodeForest` | plugin/src/shared/result-validation.ts:1228-1244 | and exactly the same forests |
| `Checkers.SerializedForestsFit` | plugin/src/read/serialize.ts:1373-1409 | every forest the serializer builds with at most the default node limit and depth at most 6 passes all three |
| `Variables.VariableSession.Resolve` | plugin/src/read/variables.ts:233-298 | every answer and every memo entry is the memo-free result from an empty stack; the stack comes back as it went in; the recursion ends by the pairs not yet on the stack |
| `Variables.VariableSession.ResolveAlias` | plugin/src/read/variables.ts:367-372 | a caller's answer, whatever was asked before it, is that meaning |
| `Variables.PlainIsMeaning` | plugin/src/read/variables.ts:239-252 | the stack a resolution starts with does not change its result, as long as it leads to the pair asked for |
| `Variables.MeaningOfChain` | plugin/src/read/variables.ts:246-294 | the result is what the alias chain stops with, and is the non-retryable limit if and only if the chain returns to a pair it has been through |
| `Variables.MeaningAnswers` | plugin/src/read/variables.ts:246-294 | in the library's own terms: a mode the variable has is used, else the default of its collection; a value there is the answer, an alias answers as its target does in the mode just used, and anything else is not found |
| `Variables.LimitMeansComingBack` | plugin/src/read/variables.ts:246-252 | the non-retryable limit is the answer if and only if following the aliases comes back to a variable and mode it has been through |
| `Queue.SessionQueue.TryEnqueue` | crates/broker/src/queue.rs:56-76 | one admission step on the object |
| `Queue.SessionQueue.ReleaseTicket` | crates/broker/src/queue.rs:84-94 | search the line, else free the slot and promote |
| `Queue.SessionQueue.PromoteWaiters` | crates/broker/src/queue.rs:97-109 | the promotion loop |
| `Queue.EveryRunIsOrderly` | crates/broker/src/queue.rs:56-109 | in every reachable queue: in_flight counts the active ids and is at most 4, at most 16 wait, no id is given out twice, every id dispatched was given out before every id that waits, and nobody waits beside a free slot, all this if and only if the last 64-bit value has not been given out twice |
| `Queue.PromoteTakesTheFront` | crates/broker/src/queue.rs:97-109 | promotion takes waiters from the front only, dispatches exactly those still listening, and moves nobody else |
| `Queue.ReleaseTwiceIsOnce` | crates/broker/src/queue.rs:84-94 | a released ticket is out of the queue, and releasing it again, or after a failed promotion, changes nothing |
| `Queue.ReleaseEffect` | crates/broker/src/queue.rs:84-109 | a release adds no ticket, every other active one stays active, and a waiter somebody listens for stays |
| `Queue.ReleaseDropsExactly` | crates/broker/src/queue.rs:84-109 | a release puts another ticket out of the queue if and only if the slot it frees lets promotion reach that ticket in the line and nobody listens for it |
| `Queue.OrderLastsAsLongAsIds` | crates/broker/src/queue.rs:58-59 | a join keeps first-in-first-out, unique ids and the counts if and only if the last 64-bit value has not been given out before, or the join is refused |
| `Queue.SaturatedIdsCollide` | crates/broker/src/queue.rs:58-59 | at saturation two callers in a row are given one id |
| `Queue.SaturationIsReached` | crates/broker/src/queue.rs:56-109 | a run of joins and releases from the empty queue that leads there, with four active and room in the line for both |
| `Queue.RefusedOnlyWhenFull` | crates/broker/src/queue.rs:60-69 | between operations a caller is dispatched at once if and only if fewer than 4 are active, and refused if and only if 4 are active and 16 wait |
| `Pending.PendingMap.Admit` | crates/broker/src/pending.rs:111-134 | a duplicate key is refused and its ticket dropped; otherwise the entry is added and nothing else changes |
| `Pending.PendingMap.NoteProgress` | crates/broker/src/pending.rs:140-155 | progress moves one entry's inactivity deadline and nothing else |
| `Pending.PendingMap.Complete` | crates/broker/src/pending.rs:157-168 | removal, the one result and the dropped ticket are one step |
| `Pending.PendingMap.TakeExpired` | crates/broker/src/pending.rs:189-206 | an expiry pass removes exactly the requests past either deadline, times each out once and drops exactly their tickets |
| `Pending.PendingMap.RemoveSocket` | crates/broker/src/pending.rs:178-183 | socket loss answers exactly that socket's requests, each once, and drops exactly their tickets |
| `Pending.PendingMap.Shutdown` | crates/broker/src/pending.rs:208-210 | shutdown answers everyone once, drops every ticket and leaves nothing |
| `Broker.EveryRunConservesSlots` | crates/broker/src/lib.rs:79-173 | over every interleaving of invoke, dispatch, response, cancel, expiry and socket loss: a queue's ids are live tickets, every live ticket is in its queue unless its receiver was dropped first, queues stay orderly, and a socket never has more than 4 requests both sent and pending |
| `Broker.StepKeepsSlots` | crates/broker/src/lib.rs:79-191 | each of the sixteen atomic steps keeps the slot invariant between queues, tickets, calls and pending entries |
| `Broker.EverySlotIsUsed` | crates/broker/src/lib.rs:136-147 | in every run a pending request that holds a slot has been sent or its dispatch can run now, never both; one that waits in line has done neither |
| `Broker.RefusedAdmissionGivesItsSlotBack` | crates/broker/src/lib.rs:118-132 | a duplicate request leaves the pending map alone, frees its own ticket, and costs no listening waiter its place |
| `Broker.ResultsComeWithRemoval` | crates/broker/src/pending.rs:157-168 | a result is sent in the very step that removes the entry and its ticket, and no entry goes without one |
| `Broker.EveryRunAnswersOnce` | crates/broker/src/pending.rs:157-228 | no call is answered twice in any run |
| `Broker.AnsweredFirstIsNeverSent` | crates/broker/src/lib.rs:136-147 | with unique request ids, a request answered before its dispatch is never sent to the plugin |
| `Broker.EveryRunOrdersTheWire` | crates/broker/src/lib.rs:136-191 | with unique request ids, on every socket a request goes out at most once and never after its cancel, and every cancel is for an answered request |
| `Broker.NothingPostponesTheTotalDeadline` | crates/broker/src/pending.rs:140-155 | however much progress arrives, the total deadline stays put, and the first expiry pass at or after it removes the request |
| `Broker.SweepIsTheExpiryPass` | crates/broker/src/ws.rs:58-67 | an expiry pass taken as single removals is a run, and leaves exactly what the pending map's pass leaves |
| `Delivery.OnlyLiveSocketsAreCalled` | crates/broker/src/lib.rs:79-101 | in every run a new call is taken if and only if its socket has registered and not left since, and goes on to the socket's queue if and only if that was opened and not closed since; else it ends there and nothing else moves |
| `Delivery.EveryCancelIsOfferedOnce` | crates/broker/src/lib.rs:175-191 | every call taken out by a cancel or a time-out, and no other, is owed one cancel frame: in every run it has been offered to the socket's channel once or is still to be, and the cancel frames on the wire are exactly those the channel took |
| `Deadlines.EveryRunKeepsDeadlines` | crates/broker/src/lib.rs:113-128 | in every run a pending request's deadlines are 120000 ms after its admission and 15000 ms after its admission or latest progress, so an expiry pass takes it if and only if it has made no progress for fifteen seconds or is two minutes old |
| `Abandonment.EveryRunDropsExactlyTheAbandoned` | crates/broker/src/queue.rs:84-109 | in every run and for every step after it, a ticket that stays live leaves its queue if and only if the step frees a slot, the promotion reaches the ticket, and its call has let go of the receiver but not yet of the ticket |
| `Abandonment.LeavesExactlyWhenAbandoned` | crates/broker/src/lib.rs:79-173 | the same of one step from any state that keeps the slot invariant |
| `Abandonment.ALiveTicketCanLoseItsPlace` | crates/broker/src/queue.rs:97-109 | a run from the start that does it: four calls hold the slots, a fifth waits and drops its receiver, and the first goes away |
| `Reuse.AnsweredCallsAreSentExactlyOnReuse` | crates/broker/src/lib.rs:136-147 | in every run, whatever ids are used: a dispatch task sends if and only if something is pending under its id, and that is its own entry exactly while its call is unanswered; so an answered call is sent if and only if its id is pending again |
| `Reuse.AReusedIdIsSentTwice` | crates/broker/src/lib.rs:136-147 | a run from the start in which one id goes out twice on one socket, the first time for a call already answered |
| `Handover.NoWakeUpIsLost` | crates/broker/src/client.rs:201-231 | over every interleaving of installs, detaches and waiters, a waiter asleep beside a full cell on the current generation has an installer between its two steps; otherwise two steps of its own serve it |
| `Handover.ReadersAreServedTheLatest` | crates/broker/src/client.rs:173-231 | in every run a waiter that reads is served what was installed last and not detached since, or parks on the generation it had seen; it wakes if and only if there have been bumps since |
| `Handover.BumpWakesEveryone` | crates/broker/src/client.rs:122-128 | the second step of any install wakes every sleeper |
| `Handover.ReadingFirstLosesAWakeUp` | crates/broker/src/client.rs:202-210 | a waiter that reads before it subscribes can miss an install that lands in between, by a run from the start, and then sleeps beside the backend in every continuation in which nobody installs again |
| `Handover.AnInstallWakesTheLate` | crates/broker/src/client.rs:122-128 | the next install does wake such a waiter |
| `Handover.BrokerClient.Install` | crates/broker/src/client.rs:122-128 | an install takes the write step first and the bump second, and no other; it fills the cell and moves the generation on by one |
| `Handover.BrokerClient.WriteCell` | crates/broker/src/client.rs:123-126 | the write under the lock is the machine's write step |
| `Handover.BrokerClient.BumpGeneration` | crates/broker/src/client.rs:127-127 | the bump is the machine's bump step, which only an installer that has written can take |
| `Supervisor.DelayDoublesToTheCap` | crates/broker/src/supervisor.rs:666-677 | for every count the delay is 100 ms doubled per further death and capped at five seconds: the clamp on the shift never shows |
| `Supervisor.CycleIsFloored` | crates/broker/src/supervisor.rs:468-517 | whether a death counts depends on the role's life alone, and the next role starts a full delay after this one started |
| `Supervisor.SlowTeardownNeverResets` | crates/broker/src/supervisor.rs:381-386 | whatever the teardown and the wait, a role that died early is counted |
| `Supervisor.HealthyRoleResets` | crates/broker/src/supervisor.rs:478-482 | a role that lived five seconds resets the count and is followed at once |
| `Supervisor.FirstElectionIsFree` | crates/broker/src/supervisor.rs:468-517 | the first election is not held back and counts no death |
| `Supervisor.SpinIsPaced` | crates/broker/src/supervisor.rs:468-517 | after k short-lived roles in a row the next starts at least min(100 * 2^(k - 1), 5000) ms after the one before it |
| `Supervisor.SpinIsSlow` | crates/broker/src/supervisor.rs:468-517 | a spin of n >= 6 such roles takes at least 6300 + 5000 (n - 6) ms |
| `Supervisor.ElectUntilEntered` | crates/broker/src/supervisor.rs:572-617 | the waits of an election that keeps failing follow the recycle curve, so the two loops back off identically |
| `Supervisor.RoleSupervisor.ElectNext` | crates/broker/src/supervisor.rs:468-517 | the object's reckoning of deaths and of the time to hold back |
| `Supervisor.RoleSupervisor.SuperviseOnce` | crates/broker/src/supervisor.rs:365-460 | one turn of the loop, with the lifetime taken at the death and not after the teardown |
| `Transport.EveryRunIsSafe` | plugin/src/ui/socket.ts:38-278 | in every run: until stopped exactly one of active socket and reconnect timer; every owner belongs to the active generation; (generation, broker id) is unique; each relayed request is owned and open or ended exactly once; replies go only to the socket their request came in on |
| `Transport.OwnedRepliesGoOut` | plugin/src/ui/socket.ts:99-133 | while the active socket is open a reply of an owned request goes out on it, and a final one ends that request and no other |
| `Transport.FramesAreHonoured` | plugin/src/ui/socket.ts:208-243 | a request is relayed if and only if it can be and none with its broker id is open; a cancel ends exactly the request it names; a ping is answered |
| `Transport.CloseAndStopLeaveNobody` | plugin/src/ui/socket.ts:251-277 | no owner outlives its socket's close, or a stop |
| `Transport.OnlyAcceptanceResetsTheBackoff` | plugin/src/ui/socket.ts:145-207 | each delay, after a close or a constructor that throws, is the table's entry for the failures since the last frame that parsed; only such a frame lowers the counter |
| `Transport.CancelsConserve` | plugin/src/ui/socket.ts:66-76 | closing a generation turns each of its owners into exactly one cancel |
| `Transport.SocketTransport.CancelGenerationRequests` | plugin/src/ui/socket.ts:66-76 | deleting while iterating leaves exactly the other generations' owners and sends the cancels in table order |
| `Transport.SocketTransport.FindGenerationRequest` | plugin/src/ui/socket.ts:50-64 | the first owner with that generation and broker id |
| `Transport.SocketTransport.OnMessage` | plugin/src/ui/socket.ts:186-250 | the handler is the machine's step |
| `Transport.SocketTransport.OnReply` | plugin/src/ui/socket.ts:99-136 | the handler is the machine's step |
| `Transport.SocketTransport.OnControllerReady` | plugin/src/ui/socket.ts:80-98 | the handler is the machine's step |
| `Transport.SocketTransport.ScheduleOne` | plugin/src/ui/socket.ts:145-155 | one timer at a time, none once stopped, with the table's delay |
| `Transport.SocketTransport.OnTimer` | plugin/src/ui/socket.ts:151-154 | the handler is the machine's step |
| `Transport.SocketTransport.TryConnect` | plugin/src/ui/socket.ts:157-176 | one generation at a time; a constructor that throws schedules a reconnect |
| `Transport.SocketTransport.OnOpen` | plugin/src/ui/socket.ts:178-185 | the handler is the machine's step |
| `Transport.SocketTransport.OnClose` | plugin/src/ui/socket.ts:251-257 | the handler is the machine's step, for the active socket and for an old one |
| `Transport.SocketTransport.OnStop` | plugin/src/ui/socket.ts:266-277 | the handler is the machine's step |
| `Hellos.EverySocketGreetsOnce` | plugin/src/ui/socket.ts:80-97 | in every run a socket says hello at most once, and exactly at the first ready message that answers what it asked while it is open and in use; it proves the broker at most once, exactly at the first frame that parses after that hello |
| `Hellos.OnlyHeardFramesCount` | plugin/src/ui/socket.ts:186-207 | a frame before the hello, of an old socket or that does not parse changes nothing; the first one heard clears the count of failures and later ones leave it |
| `Hellos.OpeningAsks` | plugin/src/ui/socket.ts:178-185 | a socket asks for its ready message when it opens while in use, and not otherwise |
| `Hellos.SocketsOnlyMoveOn` | plugin/src/ui/socket.ts:178-277 | a socket only moves on, from connecting to open, closing and closed, and its close event closes it for good |
| `Hellos.StrayRepliesAreDropped` | plugin/src/ui/socket.ts:99-107 | a reply nobody owns, or whose socket is not open and in use, changes nothing |
| `Hellos.StartConnects` | plugin/src/ui/socket.ts:157-176 | the transport starts with a socket of its own, or, where making one throws, with the timer set to 250 ms |
| `Hellos.ReconnectsInNumbers` | plugin/src/ui/socket.ts:145-155 | a lost socket is followed by a reconnect 250 ms later, 500 after a second failure in a row, then 1000, 2000 and 5000 from there on |
| `Hellos.StopClosesTheSocket` | plugin/src/ui/socket.ts:266-277 | a stop closes the socket in use and leaves none |
| `Css.Scanner.Tokenize` | plugin/src/ui/css-syntax.ts:256-340 | the scan ends at the end of the input, and the stretches its tokens were read from are non-empty, adjacent and read back as the whole input, for every string |
| `Css.TokensTile` | plugin/src/ui/css-syntax.ts:256-340 | the same of the specification from any position |
| `Css.TokenAdvances` | plugin/src/ui/css-syntax.ts:256-338 | every token takes at least one code unit and none passes the end |
| `Css.TokenTells` | plugin/src/ui/css-syntax.ts:256-338 | how each token's kind and value follow from the text it was read from, escapes decoded: names, strings, and addresses quoted or not, with where each token ends |
| `Css.PlainTokenIsItsText` | plugin/src/ui/css-syntax.ts:140-189 | a token without escapes is its own text, but for the marks around it |
| `Css.ContentIsDetermined` | plugin/src/ui/css-syntax.ts:140-231 | the decoded reading of a name, string or address is unique: one place where it can go no further, and one value |
| `Css.TokensAreMaximal` | plugin/src/ui/css-syntax.ts:140-189 | white space is never followed by white space, nor a name by anything that starts like one |
| `Css.IdentMeaning` | plugin/src/ui/css-syntax.ts:140-156 | a name is what stands, escapes decoded, up to the first unit that is neither part of a name nor an escape |
| `Css.StringMeaning` | plugin/src/ui/css-syntax.ts:158-185 | a string is what stands, escapes decoded, up to its closing quote, or up to the line end or input end that cuts it off |
| `Css.AddressMeaning` | plugin/src/ui/css-syntax.ts:191-231 | an unquoted address is what stands, escapes decoded, up to the first parenthesis or white space, and where the token then ends |
| `Css.UrlMeaning` | plugin/src/ui/css-syntax.ts:191-231 | the same of whatever follows the opening parenthesis, quoted addresses included |
| `Css.CommentMeaning` | plugin/src/ui/css-syntax.ts:258-271 | a comment runs to the first closing mark; one that is never closed stops one code unit short of the end, or at the end when nothing follows its opening mark |
| `Css.NumbersAreNumbers` | plugin/src/ui/css-syntax.ts:233-254 | what is read as a number has a number's shape |
| `Css.NumbersAreLongest` | plugin/src/ui/css-syntax.ts:233-254 | and no longer stretch from the same place has |
| `Css.EscapeReadsBack` | plugin/src/ui/css-syntax.ts:110-138 | every code point, written as six hexadecimal digits, reads back from its escape, which takes in one blank after it |
| `Css.StringReadsBack` | plugin/src/ui/css-syntax.ts:158-185 | any text of code points, quotes, line ends and those above U+FFFF included, reads back from a string of escapes |
| `Css.Scanner.ConsumeEscape` | plugin/src/ui/css-syntax.ts:110-138 | the consumer agrees with its specification at every position |
| `Css.Scanner.ConsumeString` | plugin/src/ui/css-syntax.ts:158-185 | the consumer agrees with its specification at every position |
| `Css.Scanner.ConsumeUrl` | plugin/src/ui/css-syntax.ts:191-231 | the consumer agrees with its specification at every position |
| `Css.Scanner.ConsumeNumber` | plugin/src/ui/css-syntax.ts:233-254 | the consumer agrees with its specification at every position |
| `Css.Scanner.ScanToken` | plugin/src/ui/css-syntax.ts:256-338 | one turn of the loop reads the specified token and stops where it ends |
| `CssKinds.KindIsItsOpening` | plugin/src/ui/css-syntax.ts:256-338 | each kind of token is read if and only if its own units stand there, told in letters: comment, white space, string, hash, at-keyword, number, and the identifier, function and url split; a delimiter exactly where none of the others does |
| `CssKinds.QuotedAndUrlEnd` | plugin/src/ui/css-syntax.ts:158-231 | where a string or an address token ends: at its quote or parenthesis, which it takes in, before a line end or blank, or with the input |
| `CssKinds.CommentsEnd` | plugin/src/ui/css-syntax.ts:258-271 | a comment is what stands up to the first closing mark, which it takes in; where there is none it ends one unit before the input, or with it when nothing follows the opening mark |
| `CssKinds.EscapeMeaning` | plugin/src/ui/css-syntax.ts:110-138 | what every escape stands for: up to six hexadecimal digits and the one blank after them, a line end skipped, the unit itself, or the replacement character |
| `CssKinds.ContentUnits` | plugin/src/ui/css-syntax.ts:42-231 | which units a name, a string and an address take as they stand, and where an escape begins in each, told in letters |
| `Screenshots.AccountMixedImages` | crates/tools/src/content.rs:169-222 | one entry per input in order; images are exactly those of the success entries in order; no success after the first overflow; a result is returned if and only if the finished batch fits, and is then within both limits |
| `Screenshots.LimitOfAsset` | crates/tools/src/content.rs:92-235 | an SVG is allowed up to 4 MiB of source and a raster up to 16 MiB of base64 text, and its image block carries its data and type |
| `Screenshots.OnlySourcesAreSpared` | crates/tools/src/content.rs:237-254 | of the assets in a result the text is spared the sources of the SVGs and nothing else |
| `Screenshots.ResultsInNumbers` | crates/tools/src/content.rs:256-275 | a result is given if and only if its text, those sources aside, is within 8 MiB and its envelope within 24 MiB; one within bounds that cannot be serialized is an internal error, any other is over the limit |
| `Screenshots.BatchIsDetermined` | crates/tools/src/content.rs:177-216 | that description leaves no choice: it fixes the first overflow and every entry |
| `Screenshots.RefusedExactlyByItsTail` | crates/tools/src/content.rs:179-221 | for every batch, with a cost for each entry and block: what stands up to the last success fits, and the batch is refused if and only if the error entries after it cost more than the room left in the text or the envelope; with no success, if and only if the errors alone are over |
| `Screenshots.LaterErrorsCanSinkTheBatch` | crates/tools/src/content.rs:179-221 | whatever entries and blocks cost: two pictures of allowed size that fill the envelope exactly are a result, and with the error entry of a third item after them the whole batch is refused |
| `Screenshots.TwoPicturesFillTheEnvelope` | crates/tools/src/content.rs:179-221 | there are two such pictures whenever everything but their data takes at most a third of the envelope |
| `Screenshots.SvgBlockIsItsSource` | crates/tools/src/content.rs:132-167 | an SVG's image block decodes to the source it was made from, and the size charged for it is the source's |

## Left out

- The host is a finite, fixed document: getters are pure, and one that throws reads as an
  absent property. Documents that change between pages are not modelled.
- The JSON and UTF-8 behind a cursor are functions that read back what they wrote; the
  percent-encoding behind cursor text is part of that. The JSON text of keys and cursors and
  its length are written out in `Cursors`; its parser is not. Byte lengths of other results
  are functions to natural numbers.
- Cursors.KeyLength: text is a sequence of code points, so the lone surrogates that JSON
  escapes and percent-encoding refuses do not occur in it.
- A match is compared by id, name, type and reasons: bounds and parent ids of summaries
  are not modelled, and `childIds` is dropped by the code on the match that fills a page.
- Resolving a search scope to its root, trimming and deduplicating the predicate,
  abort signals and progress ticks.
- Serialize.SerializeNodeForest: the contents of `data` at each detail level are two byte
  functions, one for a node without its children and one for a stub; the batch of
  `get_nodes`, which shares one budget over several forests, is not modelled.
- Checkers.DecodeForest: only the tree shape is decoded; field names, types and the
  other errors of the three checkers are not modelled.
- Variables.VariableSession.Resolve: the lookup budget never expires, since a lookup
  refused by the clock reads as a missing target, and memo keys are pairs, which the
  source joins with a NUL that ids do not contain. The shared stack is passed in and
  handed back as a value.
- Base64.EncodeValidatedRaster: the PNG and JPEG header readers are an input.
- Base64.EncodeBase64: the Rust encoder of `crates/tools/src/content.rs` runs the same loop
  and has no copy of its own here.
- Pending.PendingMap.TakeExpired: the order in which a hash map yields its keys is left
  open. In the protocol a sweep is a series of single removals between which other steps
  may run, which allows more than the lock does.
- Broker.EveryRunOrdersTheWire: request ids are assumed unique per socket, as generated
  identifiers are; `Reuse` has what happens when they are not. The transport's controller
  request ids are assumed unique as well. Frames that a full or
  closed channel refuses are a free choice of each sending step.
- The registry's two maps, activity leases, heartbeats, WebSocket and RPC framing, TLS-free
  sockets, the stdio service, logging, and the election itself.
- Times are milliseconds on a clock that never goes back; a sleep lasts at least as long
  as asked.
- Handover.NoWakeUpIsLost: the 64-bit generation counter is unbounded, and a waiter's
  deadline is a step that may come at any time.
- Transport.EveryRunIsSafe: messages to the controller and to an open socket are sent
  without fault, and building a hello or parsing a frame either succeeds or is refused as
  a whole.
- The SVG safety policy above the scanner, and the `(c | 32)` comparison of the scanner is
  written as a comparison with both cases of the letter.
- Screenshots.AccountMixedImages: text and envelope sizes are functions of the entries and
  images; the sibling for plain image batches, with the same loop, is not repeated.
- Screenshots.RefusedExactlyByItsTail: sizes are sums over entries and blocks. The comma
  between two entries is counted with each entry and one byte less in the base, which is
  exact for every list but the empty one. A result that cannot be serialized at all is not
  part of this lemma.
- Cursors.OwnCursorFits: the parsers' trimming of white space around a cursor, which a
  cursor made by the search does not have. A request's query and types are given trimmed.
- Handover.BrokerClient.Install: the trace of steps taken is kept for the proof alone.
- Mappers from host values to result fields, enum tables, schemas and catalogs: many
  branches and no property across functions.
