# kumolo: verified models

kumolo emulates AWS services over files. This project models four parts of it in
Dafny and proves what they promise.

**DynamoDB storage.** `Storage` is the engine as a class: metadata, items by table and
key, and the change streams (`StreamLog`: buffers in memory, one append-only file per
table, one sequence counter). Every request is one method, every file operation may
fail. All methods keep one invariant. `StorageRuns.Run` runs any requests, and
`StorageRuns.RunReplays` says that from any point of a run a stream replays to its
table, `Readers` that its readers can do so. Transactions (`Actions`, `Storage.TransactWriteItems`) are all or nothing. Scan
and Query (`Reading`, `Querying`, over `Paging`) page exactly under interleaved writes:
the theorems are about chains of their answers.

**The expression language.** `Lexer`, `Parser` and `ExprCursor` read filter texts.
`Grammar` is their grammar as a relation, and `Derivations` says that the parser accepts
exactly its texts with the trees it derives; `RoundTrip`, `Precedence` and `ParsedTrees`
print and read back both ways. `Evaluation` evaluates the trees and says exactly when that
fails, and `Meaning` says what the answer is without it. `PartiQL` and `PartiQLMeaning` compile WHERE
conditions to such texts and prove that this preserves their meaning; `SelectPlan` does
so for whole SELECT plans. `DocPath`, `Updates` and
`Projection` are the laws of document paths, update expressions and projections;
`Effects` says what each update entry leaves, `Conditions` what conditional writes and
transactions let through, `SelectPages` what chained SELECT answers bring together;
`InPlace` makes nested writes on objects, `UpdateOrder` says when their order matters.

**KMS.** `Envelope` and `KeyRotation`: no rotation, however it fails, loses a
ciphertext. Encryption is an ideal authenticated cipher given as a parameter.

**Cognito.** `Tokens` (token families and revocation), `Srp` (the SRP-6a arithmetic),
`Decoding`, `JsonStream`, `BodyMeaning`, `Validation` and `Checking` (requests read and
checked by shape).

`dafny verify dfyconfig.toml` checks everything.

## Conventions

- Attribute values are a datatype; equality of their JSON texts is equality of values.
- An item's file name, the MD5 of its key, is a number; hexadecimal order is its order.
  Where items are found again by key the hash is required to be injective.
- Clocks, random identifiers, number parsing, JSON text, regular expressions, ciphers and
  hashes are parameters. Random identifiers are required to be fresh, the clock not to
  go back.
- A failed write or removal leaves its one file as it was, and one request is one step.
- Metadata that was read once can be read again within the same request, and files found
  in a directory listing can be read.

## What does not hold

- A SELECT drops all hash equalities but the last, all sort-key conditions but the last,
  and sort-key conditions without a hash equality, and answers as if they were not there.
  `SelectPlan.SelectExactIff` says for every clause when the answer is exact all the same,
  `OrdinaryExactIff` in the clause's own terms; `TwoHashValues`, `SortWithoutHash` and
  `EarlierSort` give the wrong rows, `DroppedSortCondition` and `DroppedRangeCondition`
  instances.
- The old image that UpdateItem reports is not the previous one when a nested operation
  changed an attribute before any top-level one replaced it (`Updates.ShownExactly`;
  `NestedShowsThrough` is an instance).
- An update whose entries read what others write depends on Go's map order
  (`Updates.OrderCanMatter`); `UpdateOrder.CompatibleOrder` says when it does not.
- A value that one update stores in two attributes, or copies from one to another, is one
  object: a nested entry on one of them changes both (`InPlace.WriteShared`).
- UpdateItem and transactions let an update write key attributes: the item stays under its
  old key, while its records name it by the new attributes (`Storage.StraysExactly`,
  `StorageRuns.KeyWriteBreaksReplay`).
- A Query resumes behind the sort value of its cursor: a match that did not fit on the page
  and whose sort value cannot be told from it, a number written another way, is never
  returned (`Paging.ResumesExactly`, `Querying.TieSkipped`).
- A new stream of a name shows what an earlier one left in a file that could not be
  removed; `Engine.LeftoversMatter` says exactly when replaying all it shows then fails,
  `LeftoversBreakReplay` that it can.
- Projections with list indices move elements to the rank of their index
  (`Projection.ProjectionMoves`); `ProjectionResolvesIff` and `ProjectionTwiceIff` say when
  nothing moves and when a second projection changes nothing.
- Element constraints of lists and maps that are themselves inside lists or maps are not
  checked; `Checking.Satisfies` says what is.
- DeleteTable that fails half-way removes items without records
  (`StorageRuns.PartDeleteBreaksReplay`), and a rollback whose own write fails, after the
  failure that caused it, loses that item. Runs go on; such a table, like one with an item under a key
  not its own, is kept in `astray`, and nothing is claimed of its replay until it is made
  anew.

## Model

| member | source | states |
|---|---|---|
| `Lexer.Tokenize` | internal/dynamodb/expression.go:45-129 | The index loop gives exactly the tokens the grammar of texts `Lex` assigns, for every text: `None` at the first character no token starts with, otherwise the tokens and one EOF. |
| `Lexer.ScanNext` | internal/dynamodb/expression.go:49-125 | Each pass of the loop moves forward and leaves the meaning of the rest of the text unchanged. |
| `Lexer.LexOk` | internal/dynamodb/expression.go:45-129 | A token list ends with its only EOF, and every list index token is all digits. |
| `Lexer.LexToken` | internal/dynamodb/expression.go:45-129 | The text of a token, followed by anything that does not run into it, is read back as that token. |
| `Lexer.LexSpell` | internal/dynamodb/expression.go:45-129 | Any sequence of spellable tokens, printed with blanks where two would run together, tokenizes to itself: the inverse of printing. |
| `ExprCursor.ParseFilterExpr` | internal/dynamodb/expression.go:866-880 | For every text the cursor parser terminates, reads no token behind EOF, consumes the whole text or fails, and gives the tree of the grammar functions, which `Derivations.ParsesExactly` pins. |
| `ExprCursor.ExprParser.Consume` | internal/dynamodb/expression.go:544-554 | The cursor stays on the token list: EOF may be consumed, and the cursor is then behind the last token and no call reads there. |
| `ExprCursor.ExprParser.ParseAttrPath` | internal/dynamodb/expression.go:651-687 | A document path: the cursor method and the grammar function agree on result and new position. |
| `ExprCursor.ExprParser.ParseIn` | internal/dynamodb/expression.go:808-836 | IN lists of 1 to 100 operands; the method and the grammar function agree, the error for the 101st included. |
| `ExprCursor.ExprParser.ParseBetween` | internal/dynamodb/expression.go:791-806 | The AND of BETWEEN is taken by BETWEEN, not by the connective. |
| `ExprCursor.ExprParser.ParsePrimary` | internal/dynamodb/expression.go:620-649 | Parentheses, functions and comparisons: method and grammar agree, and mutual recursion terminates. |
| `ExprCursor.ExprParser.ParseAnd` | internal/dynamodb/expression.go:592-606 | The left-associative loop equals the grammar function. |
| `ExprCursor.ExprParser.ParseOr` | internal/dynamodb/expression.go:576-590 | The same for OR, whose operands bind tighter. |
| `RoundTrip.CondParses` | internal/dynamodb/expression.go:576-863 | A printed condition at any place of a token list parses back to itself and stops right behind it. |
| `RoundTrip.PrintThenParse` | internal/dynamodb/expression.go:866-880 | Round trip: every well-formed tree, printed with parentheses, is parsed back to the same tree. |
| `ParsedTrees.LexSpellable` | internal/dynamodb/expression.go:45-129 | Every token a text holds, apart from the final EOF, can be spelled. |
| `ParsedTrees.ParseThenPrint` | internal/dynamodb/expression.go:866-880 | The other direction: every tree the parser yields can be printed, and the canonical text parses to the same tree. |
| `ParsedTrees.ParsedExactly` | internal/dynamodb/expression.go:576-880 | The trees the parser yields are exactly those the printer can write; a second NOT directly behind a NOT is a name. |
| `Grammar.ScansIff` | internal/dynamodb/expression.go:45-129 | The scanner gives exactly the token lists of which the text consists, each token as long as it can be, with white space between them. |
| `Derivations.ParsesExactly` | internal/dynamodb/expression.go:544-880 | Main theorem of the parser: a text parses to a tree iff the grammar, stated as a relation between token ranges and trees, derives that tree from it, so no other text is accepted and no text has two trees. NOT takes one primary, OR binds less than AND, both to the left; keywords in any case. |
| `Derivations.OrSound` | internal/dynamodb/expression.go:576-606 | What the recursive descent reads from any place is derived from the tokens it has passed. |
| `Derivations.OrFound` | internal/dynamodb/expression.go:576-606 | What is derived from a range of tokens is read from there, up to the end of the range, whatever follows that does not go on with it. |
| `Precedence.PrintFewThenParse` | internal/dynamodb/expression.go:576-649 | Round trip for the printer that writes parentheses only around an OR under an AND, around either under a NOT, and around right operands of the same connective. |
| `Precedence.AndBindsTighter` | internal/dynamodb/expression.go:576-606 | Conditions joined by OR and AND without parentheses are read as the left-nested OR of the left-nested ANDs. |
| `Evaluation.EvalTotal` | internal/dynamodb/expression.go:139-535 | With every placeholder bound, evaluation of a tree without size() succeeds on every item. |
| `Evaluation.ValidatedEvaluates` | internal/dynamodb/expression.go:886-906 | The textual check of placeholders is enough: a text that parses and passes it evaluates without error on every item, unless it uses size(). |
| `Evaluation.EvalFailsExactly` | internal/dynamodb/expression.go:139-535 | With every placeholder bound, evaluation fails iff it comes to a size() of a BOOL or NULL, where AND and OR look at their right side only if the left one leaves the answer open. |
| `Evaluation.FilterFailsExactly` | internal/dynamodb/expression.go:1000-1014 | A text is answered on an item iff it parses, every placeholder in it is bound and evaluation comes to no such size(). |
| `Meaning.CompareMeans` | internal/dynamodb/storage_query.go:14-48 | Two values compare as their numbers, or as texts at the first place where they differ. |
| `Meaning.TextMeans` | internal/dynamodb/expression.go:1000-1014 | Main theorem of evaluation: for every text, bindings and item the answer is what the tree says, told by document paths, orders, beginnings, substrings and elements and not by the evaluator; it is an error iff the text does not parse, a placeholder is unbound, or reading from the left comes to a missing size. |
| `Meaning.PrintedMeans` | internal/dynamodb/expression.go:355-535 | The same for the printed text of every well-formed tree. |
| `Meaning.Connectives` | internal/dynamodb/expression.go:355-401 | NOT is true iff its operand is false; OR and AND as usual when neither side fails. |
| `Meaning.ExistenceIs` | internal/dynamodb/expression.go:407-423 | attribute_exists holds iff the path leads to a value, attribute_not_exists iff it does not. |
| `Meaning.BeginningIs` | internal/dynamodb/expression.go:425-446 | begins_with holds iff the text is the prefix followed by some text. |
| `Meaning.ContentIs` | internal/dynamodb/expression.go:448-483 | contains holds iff the text stands in the other from some place on, or the value is an element of the list. |
| `Meaning.SizeIs` | internal/dynamodb/expression.go:174-290 | size() is the length of a text or the number of elements. |
| `PartiQL.NameTextInjective` | internal/dynamodb/partiql.go:721-723 | Name placeholders of different conditions differ. |
| `PartiQL.SlotTextInjective` | internal/dynamodb/partiql.go:724-746 | No two value placeholders clash, across single values, bounds and list elements (`:pqf1_2` against `:pqf12`). |
| `PartiQL.NameBound` | internal/dynamodb/partiql.go:718-723 | Every name placeholder is bound to its condition's attribute at the end of the loop, later bindings notwithstanding. |
| `PartiQL.ValueBound` | internal/dynamodb/partiql.go:719-747 | Every value placeholder is bound to its own value at the end. |
| `PartiQL.CondsToFilterExpr` | internal/dynamodb/partiql.go:712-750 | The loop prints the specified text and bindings. |
| `PartiQLMeaning.FilterTokens` | internal/dynamodb/partiql.go:730-749 | The printed filter tokenizes to the intended tokens. |
| `PartiQLMeaning.FilterParses` | internal/dynamodb/partiql.go:712-750 | The tokens parse to the conjunction of the compiled conditions exactly if every IN list has 1 to 100 values, and otherwise fail. |
| `PartiQLMeaning.FilterRefsBound` | internal/dynamodb/expression.go:886-906 | Every placeholder in the printed text passes the reference check. |
| `PartiQLMeaning.CompilePreservesMeaning` | internal/dynamodb/partiql.go:712-750 | Main theorem: for every nonempty list of conditions and every item, evaluating the printed text gives true iff every condition holds directly, if all IN lists have 1 to 100 values, and an error otherwise. |
| `SelectPlan.Split` | internal/dynamodb/handler_partiql.go:377-390 | The classifying loop: last hash equality, last sort condition, all the rest. |
| `SelectPlan.ClassifyFinds` | internal/dynamodb/handler_partiql.go:377-390 | The plan has a hash equality, or a sort condition, iff the clause has one. |
| `SelectPlan.SortCondHolds` | internal/dynamodb/partiql.go:691-708 | A condition turned into a sort-key condition means the same. |
| `SelectPlan.GetItemFinds` | internal/dynamodb/storage_item.go:207-232 | With an injective key hash, GetItem finds exactly the unexpired item with these key values. |
| `SelectPlan.GetFetches` | internal/dynamodb/handler_partiql.go:411-420 | The GetItem plan fetches exactly the unexpired items that satisfy both key conditions. |
| `SelectPlan.QueryFetches` | internal/dynamodb/handler_partiql.go:421-437 | The Query plan matches exactly the unexpired items that satisfy hash equality and sort condition. |
| `SelectPlan.Fetch` | internal/dynamodb/handler_partiql.go:405-437 | Each of the three plans returns only unexpired items that satisfy its key conditions, none twice, and without limit and token all of them; with them the items and cursor are those of the Scan or Query page, or the one item. |
| `SelectPlan.Filter` | internal/dynamodb/handler_partiql.go:442-455 | The residual filter keeps exactly the rows that satisfy the remaining conditions, in their order, through the compiled text, and fails iff an IN list is too long and there is a row to look at. |
| `SelectPlan.Select` | internal/dynamodb/handler_partiql.go:357-459 | For every clause, limit and token: the rows are, in order, the items of the fetched page that satisfy the remaining conditions, with the page's own cursor; it fails iff the token is no key or an IN list is too long for a row that is looked at. Every row is unexpired and satisfies the conditions kept by the plan; without limit and token these are all the rows there are, and if the clause is plannable they are exactly the unexpired items that satisfy every WHERE condition. |
| `SelectPages.SelectPagesTogether` | internal/dynamodb/handler_partiql.go:357-459 | SELECT answers chained through their cursors, for any limits, on an unchanged table return together each unexpired item that satisfies what the plan keeps exactly once: for Scan plans always, for Query plans if sort values can be told apart, for the GetItem plan in the first answer. |
| `SelectPlan.PlannableKept` | internal/dynamodb/handler_partiql.go:377-437 | If there is at most one hash equality, at most one sort condition and that one only beside a hash equality, the plan keeps the whole clause. |
| `SelectPlan.SelectMissesNothing` | internal/dynamodb/handler_partiql.go:357-459 | An item that satisfies the whole clause satisfies what the plan keeps, so an unlimited answer never misses a row. |
| `SelectPlan.SelectExactIff` | internal/dynamodb/handler_partiql.go:357-459 | For any clause: the answer is exact on every table and at every time iff no item satisfies the plan or each condition of the clause follows, on its one attribute, from the kept conditions on that attribute. |
| `SelectPlan.OrdinaryExactIff` | internal/dynamodb/handler_partiql.go:377-437 | For clauses whose remaining conditions leave the key attributes alone and can be met, as can the last sort condition: exact on every table iff all hash equalities carry one value, a sort condition stands only beside a hash equality, and the last sort condition implies the earlier ones. |
| `SelectPlan.TwoHashValues` | internal/dynamodb/handler_partiql.go:385-386 | Of two hash equalities with different values one is dropped: every item the plan keeps is returned wrongly. |
| `SelectPlan.SortWithoutHash` | internal/dynamodb/handler_partiql.go:405-410 | Without a hash equality a sort condition is dropped: from any kept item one is made, by its sort value alone, that is returned wrongly. |
| `SelectPlan.EarlierSort` | internal/dynamodb/handler_partiql.go:385-386 | If the last sort condition does not imply an earlier one, each value that tells them apart gives an item that is returned wrongly. |
| `SelectPlan.SortConditionsAlone` | internal/dynamodb/handler_partiql.go:385-410 | A clause of sort conditions alone is never exact: they are dropped by the Scan plan, and for each such clause there is an item that fails it and is still a row. |
| `SelectPlan.DroppedSortCondition` | internal/dynamodb/handler_partiql.go:405-410 | A concrete instance: WHERE s = 1 on a table with sort key s answers with an item whose s is 2. |
| `SelectPlan.DroppedRangeCondition` | internal/dynamodb/handler_partiql.go:385-386 | A concrete instance: WHERE p = 'x' AND s > 'b' AND s < 'd' answers with the item whose s is 'a'. |
| `DocPath.ItemPaths` | internal/dynamodb/storage_item.go:15-25 | Nested set and remove on an item are set and remove on the map value of its attributes. |
| `DocPath.SetFailsExactly` | internal/dynamodb/storage_item.go:27-80 | A nested set succeeds iff the parent is there and has the type the last step needs. |
| `DocPath.SetThenGet` | internal/dynamodb/storage_item.go:27-80 | What was set is read back, at the appended position if the index was past the end. |
| `DocPath.SetLeavesOthers` | internal/dynamodb/storage_item.go:27-80 | Every path that parts from the written one reads the same before and after. |
| `DocPath.RemoveMissing` | internal/dynamodb/storage_item.go:91-131 | Removing what is not there changes nothing. |
| `DocPath.RemoveKeepsOthers` | internal/dynamodb/storage_item.go:91-131 | Every path apart from the removed one keeps its value, later elements of the same list one position earlier. |
| `DocPath.RemovedIsGone` | internal/dynamodb/storage_item.go:91-131 | A removed map entry is gone; a removed list element is replaced by the next. |
| `Updates.DedupKeeps` | internal/dynamodb/handler_helpers.go:632-652 | The union of two sets has every element of either, once. |
| `Updates.SetUnion` | internal/dynamodb/handler_helpers.go:632-652 | The two loops with the `seen` map compute that union, in order of first occurrence. |
| `Updates.WithoutKeeps` | internal/dynamodb/handler_helpers.go:654-672 | The difference has exactly the elements of the first set not in the second. |
| `Updates.SetDifference` | internal/dynamodb/handler_helpers.go:654-672 | The loops compute that difference in order. |
| `Updates.NestedIsPathWrite` | internal/dynamodb/storage_item.go:366-390 | A nested SET or REMOVE entry is the path write or removal on the item. |
| `Updates.EffectLocal` | internal/dynamodb/storage_item.go:338-396 | An entry depends only on the attributes of its scope. |
| `Updates.ApplyIsParallel` | internal/dynamodb/storage_item.go:338-396 | If no entry reads or writes an attribute another one writes, applying them one after the other is evaluating each on the original item: rejected iff one is rejected there. |
| `Updates.OrderIrrelevant` | internal/dynamodb/storage_item.go:338-396 | Then every iteration order of the map of entries gives the same item, or every order fails. |
| `Updates.OrderCanMatter` | internal/dynamodb/handler_helpers.go:202-209 | Without that condition it fails: SET a = if_not_exists(b, 0), b = 1 on an empty item gives two results. |
| `Updates.ShownInAnyOrder` | internal/dynamodb/storage_item.go:320-323 | For any entries in any order, each value stored being an object of its own: in each attribute the shallow copy `before` shows what the item held when a top-level operation first replaced that attribute, or holds at the end if none does; nested operations before that show through. |
| `Updates.ShownExactly` | internal/dynamodb/storage_item.go:320-323 | Likewise, the previous image handed on is the true one iff in every attribute the nested operations that ran before the first top-level one left the value as it was. |
| `Updates.TopLevelShows` | internal/dynamodb/storage_item.go:320-323 | Without nested operations the previous image is always the true one, in every order. |
| `Updates.ShownIsPrevious` | internal/dynamodb/storage_item.go:320-323 | For entries that do not depend on each other the condition can be read off entry by entry: each nested operation leaves its attribute's value as it was. |
| `Updates.NestedShowsThrough` | internal/dynamodb/storage_item.go:320-323 | A concrete nested SET whose new value already stands in the image handed on as the previous one. |
| `Effects.EntryMeans` | internal/dynamodb/handler_helpers.go:401-446 | What one entry does to the item, told by what is there afterwards: the sum of the numbers, the elements of either set each once, the elements not taken away with the attribute gone if none is left, list_append end to end, if_not_exists the old value iff there is one; and when it is refused. |
| `Effects.EntryHolds` | internal/dynamodb/storage_item.go:338-396 | In an update carried out in any order, each entry on whose attributes no other one writes has left just that. |
| `Effects.UpdateMeans` | internal/dynamodb/storage_item.go:338-396 | So for the image an update stores: each undisturbed entry has had its effect on the item as it was. |
| `Effects.UpdateRefused` | internal/dynamodb/storage_item.go:338-396 | If no entry depends on another, the update is rejected iff one of those met is refused. |
| `UpdateOrder.EditsCommute` | internal/dynamodb/storage_item.go:27-131 | Writes and removals at two paths can be made in either order if the paths part at a map step, or at two list elements that both lead on. |
| `UpdateOrder.EditLeaves` | internal/dynamodb/storage_item.go:27-131 | Such a write leaves what a path reads that parts from its own in this way. |
| `UpdateOrder.StepsCommute` | internal/dynamodb/storage_item.go:338-396 | Two entries, neither of which writes or reads where the other writes, can come in either order, rejections included. |
| `UpdateOrder.CompatibleOrder` | internal/dynamodb/storage_item.go:338-396 | If that holds of every two entries of an update, all iteration orders of the map give the same item, or all are rejected. |
| `UpdateOrder.IndependentIsCompatible` | internal/dynamodb/storage_item.go:338-396 | Entries on different attributes that do not depend on each other are a case of it. |
| `UpdateOrder.FinerThanIndependent` | internal/dynamodb/storage_item.go:338-396 | SET m.x = 1, m.y = if_not_exists(m.y, 2) is another. |
| `InPlace.Cell.SetAt` | internal/dynamodb/storage_item.go:27-80 | The nested set on objects, in place, is the set on values if no object is reached on two ways, also when it fails. |
| `InPlace.Cell.RemoveAt` | internal/dynamodb/storage_item.go:91-131 | The same for the nested removal. |
| `InPlace.Draft.SetNested` | internal/dynamodb/storage_item.go:366-384 | On an item whose shallow copy is the previous image, it changes the attribute, and the previous image exactly if the attribute is still the same object in both. |
| `InPlace.Draft.RemoveNested` | internal/dynamodb/storage_item.go:385-392 | The same for the nested removal. |
| `InPlace.Draft.Put` | internal/dynamodb/storage_item.go:338-396 | A top-level write changes the item alone and ends the sharing. |
| `InPlace.EntryInPlace` | internal/dynamodb/storage_item.go:338-396 | An update entry changes the images of the value model as these methods change those of the objects. |
| `InPlace.WriteShared` | internal/dynamodb/storage_item.go:27-80 | An object under two names shows a nested write under both. |
| `Records.NewerNewer` | internal/dynamodb/storage_streams.go:636-657 | A later cutoff only looks at what an earlier one kept: trims compose. |
| `Records.NewerIncreasing` | internal/dynamodb/storage_streams.go:636-657 | Trimming keeps sequence numbers strictly increasing. |
| `Records.NewerSize` | internal/dynamodb/storage_streams.go:636-657 | Kept are exactly the records created after the cutoff. |
| `Records.ReplayIsPlayed` | internal/dynamodb/storage_streams.go:174-220 | Replaying records by their own key attributes and new images is playing the changes they report. |
| `Records.RecordTruthful` | internal/dynamodb/storage_streams.go:174-220 | At its point of the replay INSERT means absent before, REMOVE absent after, a new image is the item from then on; an old image carried is the image before iff its writer handed that on. |
| `Records.StreamReplays` | internal/dynamodb/storage_streams.go:174-220 | Records that report the changes from one table to another replay the first into the second, each record truthful on the way. |
| `Records.PlayedMeet` | internal/dynamodb/storage_streams.go:174-220 | Changes lead two tables to the same one iff they touch every key on which the two differ. |
| `Records.ExplainsRest` | internal/dynamodb/storage_streams.go:174-220 | The later changes of a log lead from where the earlier ones ended. |
| `StreamLog.KeepNewer` | internal/dynamodb/storage_streams.go:641-648 | The retention loop keeps exactly the records newer than the cutoff, in order. |
| `StreamLog.LoadIsTrim` | internal/dynamodb/storage_streams.go:510-549 | Loading a file that the buffer shows gives the trimmed buffer. |
| `StreamLog.EmitKeeps` | internal/dynamodb/storage_streams.go:174-220 | Emitting keeps numbers increasing and below the counter, and buffer, file and history in step; a failed append takes the file alone out of step. |
| `StreamLog.TrimKeeps` | internal/dynamodb/storage_streams.go:636-657 | The same for a trim, whether or not the rewrite of the file succeeds. |
| `StreamLog.EnsureKeeps` | internal/dynamodb/storage_streams.go:125-138 | The same for a new buffer filled from disk. |
| `StreamLog.DeleteKeeps` | internal/dynamodb/storage_streams.go:149-168 | The same for dropping a stream, with a failed file removal noted. |
| `StreamLog.RestartIsTrim` | internal/dynamodb/storage.go:93-109 | A restart at time t leaves each buffer as it was without the records older than t minus 24 h, but those that could not be read or whose file was not in step, and numbering goes on above it. |
| `StreamLog.Streams.Emit` | internal/dynamodb/storage_streams.go:174-220 | The record gets the next number and reaches buffer and file, or the buffer alone if the append fails; no buffer, no record. |
| `StreamLog.Streams.Rewrite` | internal/dynamodb/storage_streams.go:581-630 | Through a temporary file with every step able to fail: at each moment a crash could hit, the stream file is the old one or the new one, whole. |
| `StreamLog.Streams.Trim` | internal/dynamodb/storage_streams.go:636-657 | The buffer is trimmed, and at every moment during the rewrite a file that was in step loads to exactly the trimmed buffer. |
| `StreamLog.Streams.Load` | internal/dynamodb/storage_streams.go:510-549 | What is loaded are the records newer than the cutoff; the file is left as it was or rewritten with them. |
| `StreamLog.Streams.Ensure` | internal/dynamodb/storage_streams.go:125-138 | An existing buffer stays; a new one holds what the file holds. |
| `StreamLog.Streams.Drop` | internal/dynamodb/storage_streams.go:149-168 | Buffer and history go, the file too unless its removal fails. |
| `StreamLog.Streams.Restart` | internal/dynamodb/storage_streams.go:675-697 | All buffers are read back but those of the tables returned as unread, which are empty; the counter is past every number, and every buffer whose file was read and in step is exactly the trimmed one. Which tables are now behind their streams is stated exactly. |
| `StreamLog.HighestSeq` | internal/dynamodb/storage.go:99-106 | The nested loop finds a bound of all restored sequence numbers. |
| `StreamRead.CountSplit` | internal/dynamodb/storage_streams.go:476-489 | A position that separates the records before from those not before is the count of the former. |
| `StreamRead.FindSeqPos` | internal/dynamodb/storage_streams.go:476-489 | On increasing records the position is the count of records below the number (AT), or not above it (AFTER), known or not. |
| `StreamRead.ChainDelivers` | internal/dynamodb/storage_streams.go:384-415 | Chained reads on a buffer that is only appended to deliver each record from the first position on exactly once, in order, for every choice of limits; each read brings the lesser of its limit and what is left. |
| `StreamRead.ReadDelivers` | internal/dynamodb/storage_streams.go:384-415 | A position is taken to the nearest end, a positive limit brings the lesser of it and what is left, any other limit all that is left. |
| `Engine.ExtractKeepsKey` | internal/dynamodb/storage_streams.go:223-233 | The key attributes of an item have the item's key, so a reader of the stream can compute it, and they are all that is kept of it. |
| `Engine.WorldReplays` | internal/dynamodb/storage_streams.go:174-220 | In every good state the records a stream was given since it started, if they all carry new images, replay the contents of then into those of now, all truthful. |
| `Engine.ReplaySince` | internal/dynamodb/storage_streams.go:174-220 | Between any two good states through which a stream with new images went on: the records given in between replay the earlier contents into the later ones, all truthful, with true old images if every writer handed them on. |
| `Engine.LeftoversMatter` | internal/dynamodb/storage_streams.go:125-138 | A new stream also shows what an earlier one left in a file that could not be removed: replaying all it shows over its start gives the contents iff every key for which those records make the start another has been touched since. |
| `Engine.LeftoversBreakReplay` | internal/dynamodb/storage_streams.go:125-168 | A concrete good state where it does not: an empty table whose stream shows a record of an earlier one. |
| `Engine.ChangeKeeps` | internal/dynamodb/storage_item.go:196-204 | Storing a change and reporting it keeps the state good; a change that leaves an item under a key that is not its own takes its table out of what is promised. |
| `Engine.RecordReports` | internal/dynamodb/storage_item.go:196-204 | The record built for a change reports it: event name, images by view type, and exactly the key attributes of the item, which name it. |
| `Engine.OneTableKeeps` | internal/dynamodb/storage_table.go:115-186 | A step on one table keeps the whole state good if it keeps that table good. |
| `Storage.UpdateKeepsKey` | internal/dynamodb/storage_item.go:338-396 | Updates that leave the key attributes alone keep an item under its own key, in every iteration order. |
| `Storage.UpdateFits` | internal/dynamodb/storage_item.go:289-397 | So such an update never takes its table out of what is promised. |
| `Storage.StraysExactly` | internal/dynamodb/storage_item.go:338-396 | With an injective hash, an item stored by an update is under its own key iff the update left every key attribute as it was. |
| `Storage.ApplyUpdates` | internal/dynamodb/storage_item.go:338-396 | The loop over a map in whatever order is one of the specified orders; it stops at the first rejected entry. |
| `Storage.Storage.Commit` | internal/dynamodb/storage_item.go:189-204 | One item is written and its change noted and reported once, or the write fails and nothing has happened; the streams go on, with a true old image iff the change hands one on. |
| `Storage.Storage.PutItem` | internal/dynamodb/storage_item.go:157-205 | It is done only if the item present meets the condition and refused only if it does not (`Allows`, `Denies`, told by `Meaning`); on success that item is replaced and one record reports it, otherwise nothing has changed. Each reply has its exact reason; an I/O error is answered iff a file operation failed. |
| `Storage.Storage.DeleteItem` | internal/dynamodb/storage_item.go:234-281 | The same for removal; removing what is not there changes and reports nothing. |
| `Storage.Storage.UpdateItem` | internal/dynamodb/storage_item.go:288-406 | For every update, of key attributes too: what some iteration order makes of the item, or of the bare key, is stored under the key asked for, each undisturbed entry having had its effect, and its change reported once with the image shown as the previous one; if that order rejects an entry nothing is stored. Each reply has its exact reason. Other streams go on with true images. |
| `Conditions.ClauseDecides` | internal/dynamodb/storage_transaction.go:124-139 | A condition compiled from a WHERE clause lets an item through iff every condition of the clause holds of it, and turns it away otherwise. |
| `Conditions.PutWhere` | internal/dynamodb/storage_item.go:157-205 | With such a condition an item is put only if the clause holds of the present one, and then stands there; it is refused only if the clause does not hold. |
| `Conditions.DeleteWhere` | internal/dynamodb/storage_item.go:234-281 | The same for a removal. |
| `Conditions.UpdateWhere` | internal/dynamodb/storage_item.go:288-406 | The same for an update, whose entries have then had their effects on the item as it was, or on the bare key. |
| `Conditions.TransactionMeans` | internal/dynamodb/storage_transaction.go:155-206 | A transaction carried out found every clause satisfied by the item under its key at the start, and each action has done to that item what it says. |
| `Conditions.ReasonMeans` | internal/dynamodb/storage_transaction.go:155-179 | A cancellation gives a reason exactly for the actions whose clause is not satisfied, with the item where asked for. |
| `Storage.Storage.BatchWriteItems` | internal/dynamodb/storage_item.go:442-514 | Puts come before deletes. On success all are done; on an error exactly a prefix, all of it with complete keys, up to the item without a key or the one operation that failed. One change per effective write is added to the books, in order and with its true previous image; other tables and streams are untouched. |
| `Storage.BatchMeaning` | internal/dynamodb/storage_item.go:457-512 | In a batch a delete of a key counts over all puts of it, and the last put counts among puts. |
| `Actions.AchievesUnique` | internal/dynamodb/storage_transaction.go:361-468 | An action has one outcome on an item if its update does not depend on iteration order. |
| `Actions.CheckMeans` | internal/dynamodb/storage_transaction.go:124-139 | A condition passes iff it is absent or the item, an empty one if there is none, meets it; it fails iff the item does not; it is invalid iff it cannot be decided. |
| `Actions.AnyActionOrder` | internal/dynamodb/storage_transaction.go:181-206 | Whatever order the same actions are listed in, the same store results, if the entries of each update are compatible. |
| `Actions.WrittenStays` | internal/dynamodb/storage_transaction.go:183-206 | With distinct items no write of a transaction covers another. |
| `Actions.FirstWrite` | internal/dynamodb/storage_transaction.go:192-200 | Each snapshot is of the store at the start. |
| `Actions.PerformedDone` | internal/dynamodb/storage_transaction.go:181-208 | The writes made one by one add up to every action done on the initial store and nothing else changed. |
| `Actions.CheckedOnly` | internal/dynamodb/storage_transaction.go:189-191 | An item that is only checked is not written. |
| `Storage.Storage.CheckDuplicates` | internal/dynamodb/storage_transaction.go:229-275 | Phase 0 passes only if every action names an item and no two the same; each error says why. |
| `Storage.Storage.CheckConditions` | internal/dynamodb/storage_transaction.go:155-179 | Phase 1 passes only if every condition is met on the present store; a cancellation lists for each action whether its own condition is not, with the item if asked for. |
| `Storage.Storage.ApplyAction` | internal/dynamodb/storage_transaction.go:361-468 | One action, an update of a key attribute included, writes its outcome on the item it names and returns the snapshot, or fails and writes nothing. |
| `Storage.Storage.Rollback` | internal/dynamodb/storage_transaction.go:593-620 | Restoring the snapshots in reverse gives back the store at the start, item by item, except the items whose own restore failed: these are as written, and no more than operations failed. |
| `Storage.Storage.ApplyAll` | internal/dynamodb/storage_transaction.go:181-206 | Phase 2 applies all writes with their snapshots, or fails and has rolled back: every item is as it was but for fewer items than operations failed (as many, after a rejected update), and these hold what their action made of them. One failed operation alone leaves nothing changed. |
| `Storage.Storage.EmitAll` | internal/dynamodb/storage_transaction.go:520-588 | After the last write the records report all changes in action order with their snapshots as old images, and the state is good again; an update's re-read image is what it wrote. |
| `Storage.Storage.TransactWriteItems` | internal/dynamodb/storage_transaction.go:146-209 | All or nothing, for any actions: on success every action has its outcome on the initial store, where every condition held, and all changes are reported with true images. On any error no record was emitted and the store is the initial one but for items whose restore failed in turn: fewer than the operations that failed (as many, after a rejected update), each named by a writing action and as that action left it. So after one failed operation, whichever it is, no item of any table has changed. Each error has its reason on the initial store, the state stays good, and only tables that differ are no longer accounted for. |
| `Storage.Storage.CreateTable` | internal/dynamodb/storage_table.go:16-44 | A name not in use gets an empty table and, if asked for, a stream that starts there and holds, of the records an earlier stream of the name left in a file that could not be removed, those younger than 24 h; other tables are untouched. |
| `Storage.Storage.UpdateTable` | internal/dynamodb/storage_table.go:162-186 | Switching on starts a stream from the present contents, leftover records of an earlier one included, switching off drops it, a new view type goes on in the same buffer; contents never change. |
| `Storage.Storage.DeleteTable` | internal/dynamodb/storage_table.go:46-70 | On success the table and its stream are gone; on an error the table is still there with a part of its items, all as they were, and nothing is promised of its stream unless that part is all. |
| `Storage.Storage.Restart` | internal/dynamodb/storage.go:65-112 | A new process finds every item, and every stream without its expired records only, unless its file was not in step or could not be read; unread files are returned and counted as failures. |
| `Storage.Storage.Trim` | internal/dynamodb/storage_streams.go:636-657 | A trim touches no item and no history, and the buffer of its table alone. |
| `StorageRuns.Do` | internal/dynamodb/storage_item.go:157-514 | Every request, however many operations fail in it, leaves a good store and has its exact effect on what was there: one change with one record, a prefix of a batch, a whole transaction or the stated rest of one, a table made, changed, dropped or partly emptied, a buffer trimmed or read back. Every stream whose table is not itself created, changed or deleted only grows, by records of its own view type, which its buffer shows too; it stays accountable unless a key attribute is written or a failed rollback changed the table. |
| `StorageRuns.OneFailure` | internal/dynamodb/storage_transaction.go:146-209 | A transaction in which one operation fails, and no update is rejected, leaves the whole state as it was. |
| `StorageRuns.Run` | internal/dynamodb/storage_streams.go:174-220 | Any requests at any times that do not go back make a run: each one has that effect on the store the one before left, from the present store to the final one; no operation failed in any of them if none failed at all, and at every moment a buffer that is not behind shows the unexpired records of its stream. |
| `StorageRuns.RunContinues` | internal/dynamodb/storage_streams.go:174-220 | In every run, over any stretch in which no request acts on the table itself, writes a key attribute of its items, or is a failed transaction that leaves the table other than it was, a stream keeps its start and only grows, and stays accountable; its buffer grows by the same records if nothing is trimmed. |
| `StorageRuns.RunReplays` | internal/dynamodb/storage_streams.go:174-220 | Main theorem: over any such stretch of any run, transactions that failed and were rolled back included, the records a stream with new images was given replay the table's contents at its start into those at its end, each truthful at its point; and every old image carried is the image before as long as updates hand those on. |
| `StorageRuns.TopLevelDiscreet` | internal/dynamodb/storage_item.go:320-323 | Updates without nested operations do so. |
| `StorageRuns.KeyWriteBreaksReplay` | internal/dynamodb/storage_item.go:338-406 | A concrete update of a key attribute after which replaying its record gives another table. |
| `StorageRuns.PartDeleteBreaksReplay` | internal/dynamodb/storage_table.go:46-70 | A concrete table left half deleted, whose stream replays to the items that are gone. |
| `Readers.ReaderGetsAll` | internal/dynamodb/storage_streams.go:384-415 | In any run, between trims: a reader at the end of the buffer who reads on at any later moments with any limits, the last time without one, gets exactly the records of the changes since, each once and in order. |
| `Readers.ReaderRebuilds` | internal/dynamodb/storage_streams.go:384-415 | From these the reader rebuilds the table of the last moment out of the one it started with. |
| `Readers.BehindOnlyByRestart` | internal/dynamodb/storage.go:93-109 | A buffer falls behind its stream only by a restart that could not read its file, or found it without a record whose append had failed. |
| `Paging.SortHolds` | internal/dynamodb/storage_query.go:122-126 | Sorting rearranges: the same elements, as often. |
| `Paging.SortAscending` | internal/dynamodb/storage_query.go:265-281 | Elements that can be told apart come out in ascending order. |
| `Paging.AscendingUnique` | internal/dynamodb/storage_query.go:119-126 | An ascending listing is determined by its elements, whatever order the directory was read in. |
| `Paging.PageFacts` | internal/dynamodb/storage_query.go:142-172 | A page is ascending and behind its cursor, and misses nothing before the next cursor. It holds at most the limit, and just as many if something is left. |
| `Paging.SortStable` | internal/dynamodb/storage_query.go:264-282 | Sorting leaves nothing in front of what it is less than and keeps the order of elements that cannot be told apart. |
| `Paging.InSegment` | internal/dynamodb/storage_query.go:128-140 | A segment holds exactly the elements at positions with its remainder. |
| `Paging.PagesAscend` | internal/dynamodb/storage_query.go:142-172 | Whatever listing each page sees, the pages together are strictly ascending and hold nothing foreign. |
| `Paging.PagesMissNothing` | internal/dynamodb/storage_query.go:142-172 | What is in every page's listing is returned. |
| `Paging.PagesConcatenate` | internal/dynamodb/storage_query.go:142-172 | On an unchanged listing the pages concatenate to what lies behind the first cursor. |
| `Paging.ChainIsPages` | internal/dynamodb/storage_query.go:142-172 | Answers chained through the cursors they hand out are, item by item, such pages. |
| `Paging.SegmentsPartition` | internal/dynamodb/storage_query.go:128-140 | Every element is in exactly one segment. |
| `Reading.SkipTo` | internal/dynamodb/storage_query.go:147-164 | The loop resumes behind the start key, also if its item is gone. |
| `Reading.CutPage` | internal/dynamodb/storage_query.go:167-172 | The page is the first `limit` items, or all if fewer are left; a cursor is handed out iff more are left, and has the key of the last one. |
| `Reading.Scan` | internal/dynamodb/storage_query.go:89-175 | The answer is the page behind the start key of the segment's part of the one ordered listing of unexpired items; it is refused iff the start key is incomplete. |
| `Reading.ScanUnderWrites` | internal/dynamodb/storage_query.go:119-172 | Scan answers chained through their cursors under arbitrary writes between them, for any limits: the items returned have strictly increasing keys, each was in the table and unexpired when its page was read, and each key that was so at every page is returned, so exactly once. |
| `Reading.SegmentedScan` | internal/dynamodb/storage_query.go:128-172 | On an unchanged table the items of a chain of answers, for any limits, are those of the segment in the one ordered listing; every unexpired item is in exactly one segment. |
| `Values.TextTransitive` | internal/dynamodb/storage_query.go:20-26 | Text comparison is transitive. |
| `Querying.PrecedesOrders` | internal/dynamodb/storage_query.go:14-47 | Within strings, numbers or the rest, the comparison is a strict order, forward and backward. |
| `Querying.PrecedesMeans` | internal/dynamodb/storage_query.go:264-282 | Ascending order is that of the numbers or texts, descending the reverse. |
| `Querying.MatchesSortMeans` | internal/dynamodb/storage_query.go:50-87 | What each operator of a sort condition asks of a value, begins_with included. |
| `Querying.Match` | internal/dynamodb/storage_query.go:241-262 | The loop collects every unexpired item that matches hash value and sort condition, once. |
| `Querying.SortRanks` | internal/dynamodb/storage_query.go:264-282 | Sort values of one class, pairwise distinct under the comparison, come out strictly ordered. |
| `Querying.SortRanksRising` | internal/dynamodb/storage_query.go:264-282 | Sort values of one class come out in order also where some cannot be told apart. |
| `Paging.ResumesExactly` | internal/dynamodb/storage_query.go:284-318 | Resuming behind the last value of a page goes on with the next match iff the two values can be told apart. |
| `Querying.TieSkipped` | internal/dynamodb/storage_query.go:284-318 | Instance: behind the number 1 the match filed under 1.0 is not found. |
| `Querying.SkipBehind` | internal/dynamodb/storage_query.go:284-314 | The loop resumes at the first match past the cursor's sort value. |
| `Querying.Query` | internal/dynamodb/storage_query.go:185-332 | The answer is cut from the exact list of matches; if sort values are of one class that list is in order and the page lies behind the start key, whose item need not exist, and if they can be told apart strictly so. |
| `Querying.QueryUnderWrites` | internal/dynamodb/storage_query.go:284-321 | Query answers chained through their cursors under arbitrary writes, deletion of the cursor's item included: the items returned are strictly ordered by sort value, each matched when its page was read, and each sort value that matched at every page is returned. |
| `Querying.QueryPagesConcatenate` | internal/dynamodb/storage_query.go:284-321 | On an unchanged table the items of a chain of answers, for any limits, are the items of the unlimited answer. |
| `Querying.ListingUnique` | internal/dynamodb/storage_query.go:241-282 | The ordered list of matches is determined by the table, whatever order the directory was read in. |
| `Projection.AddCommutes` | internal/dynamodb/expression.go:1031-1066 | Adding two paths to a tree commutes. |
| `Projection.BuildDependsOnSet` | internal/dynamodb/expression.go:1168-1185 | The tree depends on the set of paths alone, not on order or repetition; list indices included. |
| `Projection.WantedBuild` | internal/dynamodb/expression.go:1031-1066 | For attribute paths the tree leads exactly along and below the requested ones. |
| `Projection.ProjectionResolves` | internal/dynamodb/expression.go:1187-1197 | Every requested path, and everything below it, resolves identically in the projected and the original item. |
| `Projection.ProjectionKeepsOnly` | internal/dynamodb/expression.go:1114-1139 | Nothing else is kept: an attribute path resolves in the projected item iff it resolves in the item and lies above or below a requested one. |
| `Projection.ProjectionIdempotent` | internal/dynamodb/expression.go:1187-1197 | Projecting twice is projecting once. |
| `Projection.IndexPathsMove` | internal/dynamodb/expression.go:1141-1161 | With a list index both laws fail: a[1] is found at a[0] afterwards, and a second projection loses it. |
| `Projection.ListRelocates` | internal/dynamodb/expression.go:1141-1161 | In a projected list, element i stands where the number of requested indices below i puts it. |
| `Projection.ProjectionMoves` | internal/dynamodb/expression.go:1114-1161 | For all paths, list indices included: what a requested path, or one below it, leads to in the item is found in the projected item at the path with each index replaced by its rank among those requested there. |
| `Projection.ProjectionResolvesIff` | internal/dynamodb/expression.go:1114-1161 | A requested path resolves identically in every projected item iff at each list on it every lower index is requested too. |
| `Projection.ProjectionTwiceIff` | internal/dynamodb/expression.go:1187-1197 | Projecting twice is projecting once on every item iff at each list the requested indices start at 0 without a gap. |
| `Envelope.SealEnvelope` | internal/kms/handler_dataplane.go:34-62 | The copies into the buffer give exactly the envelope layout: version, key ID, algorithm, nonce, sealed text. |
| `Envelope.OpenSealed` | internal/kms/handler_dataplane.go:90-128 | An envelope names its key, opens to its text under the same material and additional data, and fails under any other. |
| `Envelope.OpenedWasSealed` | internal/kms/handler_dataplane.go:90-131 | Whatever opens is an envelope that the material sealed for the key it names. |
| `Envelope.MarshalContext` | internal/kms/handler_dataplane.go:135-150 | The bytes depend on the context alone, not on the order the map is iterated in. |
| `Envelope.ContextsApart` | internal/kms/handler_dataplane.go:135-150 | Contexts share their bytes iff they are equal, the empty one included. |
| `KeyRotation.RotatedKeeps` | internal/kms/storage.go:1092-1173 | Wherever a rotation stops, every material that was current still is or is among the earlier ones. |
| `KeyRotation.StillThere` | internal/kms/storage.go:1222-1255 | A material that was ever current is found. |
| `KeyRotation.KeyStore.RotateKeyOnDemand` | internal/kms/storage.go:1092-1173 | Refused iff the key is not enabled, not symmetric or at 25 recorded rotations; otherwise one of the four states its three writes can leave, all of them good. |
| `KeyRotation.KeyStore.CountOnDemand` | internal/kms/storage.go:1114-1119 | The loop counts the on-demand rotations. |
| `KeyRotation.KeyStore.EnableKey` | internal/kms/storage.go:858-875 | Only the state changes, and not from pending deletion. |
| `KeyRotation.KeyStore.DisableKey` | internal/kms/storage.go:877-894 | The same for disabling. |
| `KeyRotation.KeyStore.ScheduleKeyDeletion` | internal/kms/storage.go:896-912 | The same for scheduling deletion, once. |
| `KeyRotation.KeyStore.CancelKeyDeletion` | internal/kms/storage.go:914-929 | Only from pending deletion, and the key comes back disabled. |
| `KeyRotation.KeyStore.Encrypt` | internal/kms/handler_dataplane.go:308-381 | Succeeds iff the text has 1 to 4096 bytes and the key is usable, and seals with a material that is remembered. |
| `KeyRotation.KeyStore.TryDecrypt` | internal/kms/handler_dataplane.go:66-86 | The current material and then each earlier one is tried; None only if all fail. |
| `KeyRotation.KeyStore.Decrypt` | internal/kms/handler_dataplane.go:385-494 | Whatever any material that was ever current sealed opens to its text iff the key is usable and the context is the same one, and nothing else opens. |
| `KeyRotation.GroupsLookLikeUUID` | internal/kms/handler_dataplane.go:187-207 | A key ID has the expected shape iff it is five groups of 8, 4, 4, 4 and 12 lower-case hexadecimal digits joined by hyphens. |
| `KeyRotation.KeyStore.ReEncrypt` | internal/kms/handler_dataplane.go:527-684 | The new envelope holds the text of the old one, for the other key and context; it succeeds only for what a usable key had sealed. |
| `KeyRotation.KeyStore.Run` | internal/kms/storage.go:1092-1255 | Any requests, each of which may fail part-way: each has its exact effect on the keys the one before left, or a part of a rotation if a write failed, and no material that was ever current is lost. |
| `KeyRotation.KeyStore.SealedStaysReadable` | internal/kms/storage.go:1092-1255 | Encrypt, which gives an envelope iff text size and key allow it, then such a run, then decrypt: the text comes back iff the key is usable then. |
| `Srp.CongruentPower` | internal/cognito/srp.go:45-59 | Powers of congruent numbers are congruent. |
| `Srp.ServerSide` | internal/cognito/srp.go:348-362 | The server's secret is g^((a + u x) b), for any representative of g^a it is sent. |
| `Srp.ClientSide` | internal/cognito/srp.go:53-59 | The client's secret of section 2.6 of RFC 5054, from the server's B, is the same power. |
| `Srp.Agreement` | internal/cognito/srp.go:348-362 | Both arrive at the same number for every modulus above 1 and all g, k, a, b, x, u. |
| `Srp.OnlyResidueMatters` | internal/cognito/srp.go:359-362 | Only the residue of the client's public value matters. |
| `Tokens.LoginKeeps` | internal/cognito/jwt.go:203-298 | A login keeps every issued token's family revoked or held by a live refresh token of its user, and identifiers distinct. |
| `Tokens.RefreshKeeps` | internal/cognito/handler_auth.go:458-512 | The same for a new access token of an existing family. |
| `Tokens.RemovedKeeps` | internal/cognito/storage_token.go:157-187 | Refresh tokens may go once their families are revoked. |
| `Tokens.SignOutRejects` | internal/cognito/storage_token.go:193-233 | Revoking the families of a user's refresh tokens rejects every token issued to the user and changes no one else's status. |
| `Tokens.RevokeRejects` | internal/cognito/handler_auth.go:1019-1030 | Revoking one family rejects exactly its tokens besides those rejected before. |
| `Tokens.Pool.CompleteAuth` | internal/cognito/handler_auth.go:517-586 | A login hands out an accepted token whose family is held, or, if the refresh token cannot be stored, nothing. |
| `Tokens.Pool.RefreshAccess` | internal/cognito/handler_auth.go:458-512 | A refresh is granted exactly to the right client with an unexpired token of an enabled user, and stays in the family and with the user. |
| `Tokens.Pool.Accepts` | internal/cognito/handler_user.go:176-194 | A token is let through iff it is unexpired and neither it nor its family is revoked, unless a lookup fails. |
| `Tokens.Pool.RevokeOrigins` | internal/cognito/storage_token.go:193-233 | On success exactly the families of the user's refresh tokens are added; on a failed write some of them. |
| `Tokens.Pool.DeleteRefreshTokens` | internal/cognito/storage_token.go:157-187 | On success exactly the user's refresh tokens are gone; on a failed removal some of them. |
| `Tokens.Pool.RevokeToken` | internal/cognito/handler_auth.go:981-1043 | The family is rejected and its refresh token gone, nothing else; only for the token's own client. |
| `Tokens.Pool.GlobalSignOut` | internal/cognito/handler_user.go:416-465 | On success every token issued to the user is rejected and no refresh token left; other users' tokens keep their status, even on failure. |
| `Tokens.Pool.AdminDisableUser` | internal/cognito/handler_admin.go:414-444 | The same, and the user is disabled. |
| `Tokens.Pool.Run` | internal/cognito/storage_token.go:157-233 | Any requests, each of which may fail part-way: each has its exact effect on the pool the one before left, or a stated part of it if a write failed, and no revocation is taken back. |
| `Tokens.Pool.SignedOutForever` | internal/cognito/handler_user.go:416-465 | After a sign-out, refused or failed only for the stated reasons, and such a run every token issued before stays rejected. |
| `Tokens.Pool.DisabledForever` | internal/cognito/handler_admin.go:414-444 | The same after disabling, also once the user is enabled again. |
| `Decoding.DecodeConforms` | internal/cognito/deserialize.go:43-136 | A successful decode is Nil iff the value is null, and otherwise has the shape's type throughout, with 32-bit integers and Nil only inside lists and maps. |
| `Decoding.LastEntryWins` | internal/cognito/deserialize.go:79-108 | A member is present iff it is known and its last entry is not null, and then holds what that entry decodes to. |
| `Decoding.StructureFailsExactly` | internal/cognito/deserialize.go:79-108 | A structure fails iff some entry of a known member does not decode. |
| `Decoding.IntegerExact` | internal/cognito/deserialize.go:150-155 | Numbers are cut toward zero, and every one that fits 32 bits is kept. |
| `BodyMeaning.DecodeSays` | internal/cognito/deserialize.go:43-187 | Main theorem of decoding: a body decodes to a value iff it says that value under the shape, stated as a relation: texts, flags and their spellings, numbers without their fraction within 32 bits, lists element by element, maps and structures by their last entries. |
| `JsonStream.Decoder.DecodeValue` | internal/cognito/deserialize.go:43-77 | The one-pass decoder over tokens computes the decoding of the value ahead and stops right behind it. |
| `JsonStream.Decoder.DecodeMembers` | internal/cognito/deserialize.go:79-108 | The same for structures; unknown members are read over whole. |
| `JsonStream.Decoder.DecodeElems` | internal/cognito/deserialize.go:110-121 | The same for lists. |
| `JsonStream.Decoder.DecodeEntries` | internal/cognito/deserialize.go:123-136 | The same for maps. |
| `JsonStream.Decoder.DecodeInput` | internal/cognito/deserialize.go:26-41 | A body that is not an object is refused; otherwise the whole body is consumed and the result conforms to the input shape. |
| `Validation.HashCapacity` | internal/cognito/validation.go:348-354 | The table is the smallest doubling of 16 of which three quarters hold n, up to 2^30. |
| `Validation.InMapKeys` | internal/cognito/validation.go:317-334 | The ordered keys are exactly the map's keys. |
| `Validation.OrderedOnce` | internal/cognito/validation.go:83-93 | If no two member names agree after lower-casing the first letter, every member is checked exactly once. |
| `Validation.JavaOrderExact` | internal/cognito/validation.go:328-334 | The buckets come in order, and within a bucket the keys as they were. |
| `Validation.MaskedWithin` | internal/cognito/validation.go:336-342 | A bucket lies within the table. |
| `Checking.MemberConforms` | internal/cognito/validation.go:94-105 | A member present in a decoded structure has the member's type, so its check cannot meet another. |
| `Checking.RenderValue` | internal/cognito/validation.go:278-313 | Printing is defined on every decoded value: no type assertion in it can fail. |
| `Checking.CheckStructure` | internal/cognito/validation.go:83-108 | The loop reports the violations of the members in order, an absent nested integer read as 0. |
| `Checking.CheckValue` | internal/cognito/validation.go:111-127 | Checking is defined on every decoded value and reports what is specified. |
| `Checking.CheckList` | internal/cognito/validation.go:129-145 | The same for lists, null elements passed over. |
| `Checking.CheckMap` | internal/cognito/validation.go:147-168 | The same for maps. |
| `Checking.CheckExact` | internal/cognito/validation.go:111-168 | Nothing is reported iff the value keeps every constraint that is looked at, stated by bounds, patterns and value sets, without order and paths. |
| `Checking.BrokenExactly` | internal/cognito/validation.go:186-216 | Reported are exactly the broken rules, each once: upper bound, lower bound, pattern, set of values. |
| `Checking.BrokenIff` | internal/cognito/validation.go:181-216 | A scalar breaks a rule iff it is outside its bounds, not of the pattern or not among the values. |
| `Checking.SizeExactly` | internal/cognito/validation.go:170-179 | The same of the two bounds of a list or map. |
| `Checking.ValidateInput` | internal/cognito/validation.go:62-81 | A request is accepted iff every member of the input keeps its constraints. |

## Left out

- HTTP handlers, routing, request structs, error texts and status codes, logging, configuration, S3, STS and the other services.
- Cryptography: AES-GCM, RSA, HMAC, bcrypt, SHA and MD5 stand behind parameters with the properties stated above; the SRP hash, padding and key derivation are not modelled.
- Concurrency: each storage method, and each Cognito handler, is one step; the `deleted` flag that keeps a late append from a dropped stream has no counterpart.
- Aliasing: outside InPlace nested values are changed by value, with the sharing between an item and UpdateItem's shallow copy modelled.
- Updates.ShownInAnyOrder: each stored value is its own object, so that a nested entry on an attribute that another entry sets from the same value, from if_not_exists or from list_append does not show elsewhere.
- Updates.ShownExactly: likewise; entries that are compatible in the sense of UpdateOrder are not concerned.
- Storage.Storage.UpdateItem: likewise for the stored item and the image handed on.
- if_not_exists whose fallback is another attribute path: an absent fallback would store JSON null, which the value datatype does not have.
- parseUpdateExpression, parseKeyConditionExpression and the PartiQL statement parser: the model starts from parsed operations and conditions.
- executePartiQLInsert, Update, Delete and the PartiQL transaction wrappers: they only translate to the modelled storage calls.
- Secondary indexes, index projections and mergeKeySchemas; paging is not claimed where sort keys repeat or are missing.
- Stream iterators across a trim; shard, stream and iterator names, and their encoding.
- Torn appends to a stream file, and the wrap-around of the 64-bit sequence counter.
- TTL, PITR, Kinesis, tag and capacity settings; expiry is a predicate on items, given for each read.
- Unreadable item files, which Scan and Query skip, and unreadable earlier key materials, which decryption skips.
- Table metadata files that cannot be read: the item operations answer with the same error as for an unreadable item.
- Projection.AddCommutes: the tree is a value; the source updates its nodes in place.
- parseProjPath: projections start from parsed paths.
- Cognito sign-in challenges, MFA, sessions, user deletion and JWT encoding; signatures are ideal.
- KMS aliases, grants, tags, asymmetric and HMAC keys, imported material, and the size limits of encryption contexts.
- Bodies that are not valid JSON: they are refused before any token is read, and the decoder model starts behind that.
- Texts of constraint messages and the generated shape tables; a violation carries the rule instead of its text.
