# A verified model of the gateway's core

This project models the logic at the core of an API gateway that merges upstream OpenAPI
documents, serves the routes they describe and protects what stands behind them, and proves
what its parts promise.

- **Merging** (`Nodes`, `JsonPointer`, `Meaning`, `Fingerprint`, `Operations`, `Arrange`,
  `Merger`, `Dedupe`, `Publishing`, `Copying`, `Documents`, `Assembly`, `Reading`, `Merge`,
  `Foresight`, `MergeLimits`). A node is a tree, a document a map from component to node, and
  the meaning of a node is its unfolding: the tree obtained by following references to a given
  depth, the same for every spelling of the names on the way. A merge publishes exactly the
  exposed operations and the components they reach, under names that never clash. Which
  references resolve, and which operations and components keep their unfolding, is stated
  exactly, one by one; under a guard on names both are told from configuration and sources.
- **Normalising** (`Normalise`, `Acceptance`). OpenAPI 3.0 schemas rewritten to 3.1 accept the
  same instances.
- **Routing** (`Paths`, `Router`, `Escaping`, `Substitute`). The trie refines a flat list of
  templates, and a match filled into the upstream template is faithful to the request.
- **The route table** (`RouteTable`, `Serving`, `ServingLimits`). Published equals served minus
  hidden, from the configuration to the merged document on one side and to the router on the
  other.
- **Draining and swapping** (`Drain`, `Swap`). Transition systems with one atomic operation to
  a step and any number of threads; the theorems hold for every legal run.
- **Limiting and breaking** (`Limiter`, `Breaker`). Classes that step as pure functions say,
  and bounds proved over every run of those functions.
- **Banning** (`ScanGuard`). Two stores, tables in memory and keys with a time to live, that
  cannot be told apart while the miss window stays.

`Text` and `Wrappers` hold strings and small datatypes. `dafny verify dfyconfig.toml` checks
everything.

Where code and comments disagree the code is followed. The check of a route's parameters is
described as equality of the two sets; the code, and `RouteTable.ParamsAgree`, ask only that
the gateway path provides what the upstream path needs.

Results that are limits of the design, each with its exact condition and a concrete input:

- A reference into the middle of a component is not redirected when dedupe collapses that
  component, and dangles (`MergeLimits.TailDangles`); `Dedupe.ResolvesAfterDedupe` says exactly
  when such a reference survives a pass, and `Foresight.LandsUnlessCollapsed`,
  `Foresight.OperationExactly` and `Foresight.MeaningExactly` tell it, and what it makes of an
  operation and of the document, from configuration and sources.
- A component under a section the document does not list is dropped at assembly, so references
  to it dangle (`MergeLimits.SectionDropped`); with dedupe off this is the only way
  (`Documents.PlainExactly`).
- A gateway security scheme hides an imported one that is published under its name
  (`MergeLimits.SchemeHidden`, `Documents.HiddenShowsScheme`).
- The 3.0 rewrite goes into values that are data, so an enum can come to refuse what it
  listed (`Acceptance.EnumRewritten`), exactly when a mapping in the value says nullable true
  or has a boolean exclusive bound (`Acceptance.EnumKeptExactly`, `Normalise.WalkUntouched`).
- It leaves the siblings of a reference, which the 3.1 rules read, in place
  (`Acceptance.SiblingRefuses`, `Acceptance.SiblingsAccept`), and done twice it changes a bound
  spelt like a flag (`Normalise.FlagBoundMoves`, `Normalise.NormaliseIdempotent`).
- A release whose decrement came before a runtime was retired can close it under threads that
  acquired in between (`Drain.ClosedWhileHeld`); `Drain.ClosedUnderNobody` says no others.
- Two paths of one shape with differently named parameters, both using CORS, cannot both have a
  preflight route, so the router cannot be built from a table that was accepted
  (`ServingLimits.EnumsRefused`, `ServingLimits.TwoSpellingsRefused`, `Serving.BuildRouter`).
- Late call reports can let two probes out exactly when the minimum of calls was outstanding at
  a trip (`Breaker.TwoProbesOut`, `Breaker.OneProbeExactly`, `Breaker.TwoProbesFollow`).
- After a reload changes the miss window over a kept store, the two ban stores can count a miss
  differently (`ScanGuard.ChangedWindowMiscounts`); they answer alike exactly as long as no miss
  comes with a window that decides otherwise than the one its count began under
  (`ScanGuard.StoresAgreeExactly`).

## Model

| member | source | states |
|---|---|---|
| `Merge.Merge` | internal/oas/merge.go:65-152 | The merge succeeds exactly when no (path, method) slot is claimed twice and every reference met from the exposed operations is local and resolves; a collision names the claimant that comes first by path and method and the one that comes second; what a success publishes is `Documents.Published`: exactly the exposed slots, exactly the reachable components, each under the first free candidate of its namespace, only components of one name and structure sharing a home, the gateway's schemes over the rest; no reference dangles if and only if every reference on show lands; each operation, and each component, none of whose reads a scheme covers keeps its unfolding when all it reads is fine (listed sections, references whole or to components that do not collapse) and, if keys are unique and no given-up slot is taken again, only then. |
| `Arrange.ArrangedSorts` | internal/oas/merge.go:107-114 | The operations are taken in a permutation sorted by path, then method, with equals in the order given. |
| `Arrange.ArrangedByPath` | internal/oas/merge.go:107-114 | Of two operations the one taken first has the smaller path, or the same path and not the greater method, strings compared character by character. |
| `Arrange.OrderIsFree` | internal/oas/merge.go:107-114 | Operations that differ in path or method are taken in one order, whatever order they are given in. |
| `Copying.ArrangedJobs` | internal/oas/merge.go:107-134 | Sorting changes neither what is copied nor whether the merge goes through. |
| `Copying.CopyOperations` | internal/oas/merge.go:115-134 | The operation loop claims each slot once, imports exactly the components the operations name, and stops at the first slot taken twice, naming both operations. |
| `Copying.JobSays` | internal/oas/merge.go:153-189 | What is published of an operation: at its gateway path under the method in lower case, its own content with, in front of its parameters, the path-level ones it does not override by name and location, and the gateway's four keys. |
| `Copying.MethodsExactly` | internal/oas/spec.go:14-25 | Exactly the eight methods of the Path Item Object are path-item keys. |
| `Merge.PlainPublished` | internal/oas/merge.go:136-152 | What is assembled with dedupe off meets `Documents.Published`, every component staying where it was first published. |
| `Merge.DedupedPublished` | internal/oas/merge.go:141-151 | What is assembled after any dedupe pass meets `Documents.Published` too, references with a tail included. |
| `Reading.PassMeans` | internal/oas/merge.go:141-152 | After any dedupe pass and assembly, each operation and each component that reads only what is fine, nothing of it covered by a gateway scheme, unfolds as in its own source, whatever becomes of the rest of the document. |
| `Reading.PassNeeds` | internal/oas/merge.go:141-152 | Where no given-up slot is taken again and keys are unique, one that unfolds as its source reads only what is fine: no unlisted section and no tail into a collapsed component anywhere on its trails. |
| `Reading.KeptFirst` | internal/oas/merge.go:401-407 | A shared home shows the copy of the component whose published name comes first among those that share it. |
| `Reading.SealedCopy` | internal/oas/merge.go:365-409 | A copied node whose references follow into a set of components closed under reading, all uncovered and fine, unfolds in the assembled document as in its source, at every depth. |
| `Meaning.AlikeRefs` | internal/oas/merge.go:285-295 | With unique keys, a node and its rewrite that unfold alike have references that unfold alike, one by one. |
| `Assembly.NoDanglingExactly` | internal/oas/merge.go:141-152 | No reference of the document dangles if and only if each reference on show names a component with a listed section and is whole or finds its first slot still occupied; stated over the sources' own references. |
| `Foresight.MeaningExactly` | internal/oas/merge.go:355-409 | Under a guard on configuration and sources (one namespace a spec, no two components expected in one slot, for dedupe free plain slots, no scheme under an expected or final name): the document means what its sources mean and nothing dangles if and only if every section reached is listed and no kept reference has a tail into a component that collapses, both told from the sources. |
| `Foresight.OperationExactly` | internal/oas/merge.go:355-409 | One operation: under the guard on names, when nothing it reads lies under a gateway scheme, it keeps its meaning if and only if everything it reads is fine; all of it told from configuration and sources, whatever else in the document hides or dangles. |
| `Foresight.ComponentExactly` | internal/oas/merge.go:355-409 | The same for one component. |
| `Foresight.NamesForetold` | internal/oas/merge.go:210-240 | Under that guard the names a merge hands out are the ones computed from jobs and sources: namespace and capitalised name first, the plain name for exactly the components that collapse. |
| `Foresight.NamedInTurn` | internal/oas/merge.go:223-235 | A component is published under the plain name, or with 2, 3 and so on behind it, each name passed over being another component's. |
| `Foresight.PlainlyForeseeable` | internal/oas/merge.go:223-229 | The guard holds when no namespace begins another or a capitalised component name and no two names capitalise alike. |
| `Documents.MeaningByNames` | internal/oas/merge.go:355-409 | In terms of the names handed out: with no scheme over a component and no given-up slot taken again, the whole document means what its sources mean and nothing dangles if and only if every section is listed and every kept reference is whole or names a component that does not collapse. |
| `Foresight.LandsUnlessCollapsed` | internal/oas/merge.go:386-408 | Under the guard a reference lands if and only if its section is listed and it is whole or its component does not collapse. |
| `Foresight.NoneRetakenForetold` | internal/oas/merge.go:398-407 | Under the guard no slot given up in a collapse is taken again. |
| `Documents.PlainExactly` | internal/oas/merge.go:141-152 | With dedupe off and no scheme over a component, nothing dangles if and only if every imported section is listed, and every operation and component keeps its meaning if and only if the same. |
| `Documents.HiddenShowsScheme` | internal/oas/merge.go:574-585 | Where a gateway scheme has the name of an imported one the document shows the gateway's, and the import keeps its meaning if and only if the two say the same. |
| `MergeLimits.TailDangles` | internal/oas/merge.go:401-408 | Two backends with one error schema, an operation answering with a property of it and another with the whole: the merge goes through and, with dedupe on, a reference of the published document dangles. |
| `MergeLimits.CollapsedTailDangles` | internal/oas/merge.go:401-408 | In any merge with dedupe on and un-namespaced names free, an operation's reference to a place inside a component that collapses dangles. |
| `MergeLimits.SchemeHidden` | internal/oas/merge.go:574-585 | A backend's scheme under a gateway scheme of the name it is published with: the merge goes through, deduping or not, and the import loses its meaning. |
| `MergeLimits.SectionDropped` | internal/oas/merge.go:555-560 | An operation that refers to a component under a section the document does not list: the merge goes through, deduping or not, and the reference dangles. |
| `MergeLimits.SectionsExactly` | internal/oas/merge.go:555-560 | An operation that refers to one component as a whole: the reference resolves if and only if the section is one of the ten of the Components Object. |
| `Documents.PathPublished` | internal/oas/merge.go:555-560 | With dedupe off and no scheme over a component, if nothing dangles, every component on a reference path from an exposed operation has a section the document carries. |
| `Merger.Merger.Enqueue` | internal/oas/merge.go:211-240 | A component gets the first free candidate name in its section and joins the queue once; a known one keeps its name; it fails exactly when the spec lacks the component, reserving nothing. |
| `Merger.FirstFree` | internal/oas/merge.go:223-229 | The numeric-suffix search ends, and ends at the first candidate no slot of the section holds. |
| `Merger.Merger.Repoint` | internal/oas/merge.go:174-188 | Every reference of a copied node is repointed at its published name with its tail kept; it fails exactly when some reference is not local or names nothing. |
| `Merger.Merger.BuildOperation` | internal/oas/merge.go:158-189 | Fold, stamp, repoint: succeeds exactly when the path-level parameters are a list and every reference is good, and returns the published form of the prepared operation. |
| `Merger.Merger.CopyComponent` | internal/oas/merge.go:243-274 | One pass of the worklist fills the component's slot with its repointed copy and imports what it names, nothing else. |
| `Merger.Merger.DrainAll` | internal/oas/merge.go:243-274 | The worklist loop terminates, on the components not yet imported, and an error means something reachable refers to what its spec lacks. |
| `Merger.Merger.DrainQueue` | internal/oas/merge.go:243-274 | When it succeeds the imported components are exactly those reachable by reference from the roots, each filled, and earlier names are unchanged. |
| `Merger.PublishStable` | internal/oas/merge.go:285-295 | What has been repointed stays valid as more components are imported. |
| `Publishing.NamesInjective` | internal/oas/merge.go:223-239 | No two source components share a published slot. |
| `Publishing.PublishKeepsMeaning` | internal/oas/merge.go:174-188 | A node copied under published names unfolds in the merged components to what it unfolds to in its own spec, at every depth, cycles and tails included. |
| `Publishing.PublishKeepsPrint` | internal/oas/merge.go:415-429 | A component has the same fingerprint after import as in its source, whatever it is called, so equal schemas of two backends are seen as one structure. |
| `Publishing.PublishedRefs` | internal/oas/merge.go:174-188 | Every reference of a published node is one the merger printed, to a held component, with the source reference's tail. |
| `Operations.FoldedParams` | internal/oas/merge.go:297-329 | Parameter by parameter: an operation-level parameter wins its (name, in) outright, other path-level ones are kept in order and come first, and no other key of the operation changes. |
| `Operations.FoldedList` | internal/oas/merge.go:297-341 | The folded list is, in order, the path-level parameters without those some operation-level one has both the name and the location of, and then the operation-level ones; one that lacks either is kept. |
| `Operations.FoldedLeavesOut` | internal/oas/merge.go:334-341 | A path-level parameter is left out if and only if an operation-level one has the same name and the same location. |
| `Operations.FoldPathParams` | internal/oas/merge.go:301-329 | The two loops compute exactly the folding that `FoldedParams` characterises, or fail when the path-level parameters are not a list. |
| `Operations.StampedGet` | internal/oas/merge.go:158-189 | Only `operationId` and the three `x-nina-` keys of an operation change, to the stated values. |
| `Dedupe.Dedupe` | internal/oas/merge.go:365-409 | For any order of the groups: a component moves exactly to the un-namespaced slot of its group, which holds the least-named member's node, and only if two or more agree, nobody contests the name and the slot is free; every other component stays; exactly the moved ones are redirected. |
| `Dedupe.DedupeKeepsMeaning` | internal/oas/merge.go:355-409 | With every kept reference whole or to an unmoved component, collapsing and redirecting in one pass leaves the unfolding of every node unchanged, cyclic components included. |
| `Dedupe.ResolvesAfterDedupe` | internal/oas/merge.go:401-408 | A reference still resolves after the pass if and only if it names a whole or unmoved component, or another group took over the slot it names. |
| `Dedupe.CollapsesExactly` | internal/oas/merge.go:386-407 | When un-namespaced slots are free and no two base names share one, a component collapses if and only if another shares its base name and structure and nobody contests the name; then group order is irrelevant. |
| `Documents.TwinsShare` | internal/oas/merge.go:365-409 | With dedupe on and plain names free, components of one section and name that are the same up to names and key order all end up under the capitalised name without a namespace. |
| `MergeLimits.ErrorsCollapse` | internal/oas/merge.go:431-463 | Two backends whose error schemas differ in key order alone: the merge publishes one, as schemas/Error. |
| `Dedupe.TailResolvesExactly` | internal/oas/merge.go:401-408 | Under the same condition a reference into the middle of a component survives dedupe if and only if that component does not collapse, a condition on the components before the pass. |
| `Fingerprint.EqualPrintsUnfoldAlike` | internal/oas/merge.go:411-476 | Equal fingerprints under stacks that grew in step mean equal unfoldings at every depth, back-references followed to the level they name. |
| `Fingerprint.EqualPrintsAlike` | internal/oas/merge.go:415-429 | Two components with equal fingerprints from an empty stack unfold alike at every depth, whole or at any tail. |
| `Fingerprint.HashIgnoresNames` | internal/oas/merge.go:411-429 | A fingerprint is unchanged by any injective renaming of what the component reaches, cycles included. |
| `Fingerprint.HashIgnoresOrder` | internal/oas/merge.go:431-463 | Components whose nodes, and those of what they reach, pair off one to one with the same content up to names and the order of mapping keys have one fingerprint, cycles included. |
| `Meaning.MovedUnfoldsAlike` | internal/oas/merge.go:285-295 | If every component is carried to its new place with its references following, every node unfolds alike before and after. |
| `JsonPointer.UnescapeEscape` | internal/oas/node.go:154-163 | Unescaping undoes escaping for every component name, as sections 3 and 4 of RFC 6901 require. |
| `JsonPointer.ParseRefText` | internal/oas/node.go:131-167 | Parsing a reference the merger prints gives back its section, name and tail. |
| `JsonPointer.ParseExactly` | internal/oas/node.go:131-151 | A text is parsed to a component and a tail if and only if it is #/components/, a section, a slash, a name that unescapes to the component's and, unless the tail is empty, a slash and the tail. |
| `JsonPointer.PrintExactly` | internal/oas/node.go:165-167 | The printer writes such a text, without a slash at the end for a whole component. |
| `JsonPointer.EscapeExactly` | internal/oas/node.go:159-163 | Escaping writes ~ as ~0 and / as ~1, leaves every other character and goes character by character. |
| `JsonPointer.RefTextInjective` | internal/oas/node.go:165-167 | Two printed references are equal only for the same component and tail. |
| `JsonPointer.ParsedIsWellFormed` | internal/oas/node.go:131-151 | A parsed reference has a non-empty section without a slash and a non-empty name. |
| `Nodes.MapSetGet` | internal/oas/node.go:36-57 | A value set under a key is read back, and no other key's value moves. |
| `Nodes.RewriteAgrees` | internal/oas/merge.go:285-295 | Rewriting depends only on what the renaming says of the references present. |
| `Nodes.RewrittenRef` | internal/oas/merge.go:285-295 | Every reference after a rewrite is the renaming of one that was there before. |
| `Text.ItoaInjective` | internal/oas/merge.go:225-229 | Decimal suffixes are distinct for distinct numbers, so the name search tries no name twice. |
| `Text.ItoaSpells` | internal/oas/merge.go:225-235 | A suffix consists of decimal digits, spells its number and has no leading zero. |
| `Text.CapitaliseFirst` | internal/oas/merge.go:343-352 | Capitalising puts the i-th capital for the i-th small letter at the front and changes nothing else. |
| `Text.LeqIsPrecedes` | internal/oas/merge.go:107-114 | The order of strings: a prefix first, otherwise by the first character that differs. |
| `Acceptance.AcceptanceKept` | internal/oas/spec.go:253-318 | A schema read by the 3.0 rules accepts, to every depth and through references and recursion, exactly what its rewrite accepts read by the 3.1 rules, where a reference has no sibling but annotations and nothing an assertion or an enum holds looks like a 3.0 keyword. |
| `Normalise.WalkUntouched` | internal/oas/spec.go:253-318 | The rewrite leaves a node as it is if and only if no mapping in it says nullable true or has a boolean exclusive bound. |
| `Acceptance.ValueKept` | internal/oas/spec.go:253-274 | With unique keys, data denotes the same JSON value after the rewrite if and only if no mapping in it says nullable true or has a boolean exclusive bound. |
| `Acceptance.EnumKeptExactly` | internal/oas/spec.go:253-274 | A schema that allows one value accepts the same instances after the rewrite if and only if no mapping in that value says nullable true or has a boolean exclusive bound. |
| `Acceptance.EnumRewritten` | internal/oas/spec.go:253-282 | The object {"nullable": true} is accepted by an enum that lists it and refused by the rewritten enum. |
| `Acceptance.SiblingsAccept` | internal/oas/spec.go:253-274 | At every depth a reference with siblings accepts, after the rewrite, exactly what it accepted before and the siblings accept too. |
| `Acceptance.SiblingRefuses` | internal/oas/spec.go:253-274 | A reference to a schema that accepts everything, with a string type beside it, accepts a number before the rewrite and refuses it after. |
| `Acceptance.DocumentKept` | internal/oas/spec.go:234-318 | The same inside a document: with the rewritten components behind the references, acceptance is unchanged. |
| `Normalise.ComponentNormalised` | internal/oas/spec.go:234-274 | Every component is found where it was, rewritten. |
| `Normalise.NormaliseIdempotent` | internal/oas/spec.go:253-327 | Normalising a document a second time changes nothing if and only if no bound under an exclusive flag is itself spelt true or false. |
| `Normalise.FlagBoundMoves` | internal/oas/spec.go:303-318 | A bound spelt true, under an exclusive flag, is rewritten by the second pass as well. |
| `Normalise.NullOnce` | internal/oas/spec.go:292-299 | A list of types gets null at its end, if and only if it has none, and keeps the rest. |
| `Normalise.NoFlagsLeft` | internal/oas/spec.go:277-318 | After the rewrite no mapping is nullable and, where the bound is not itself spelt true or false, neither exclusive keyword is. |
| `Acceptance.WithNullOk` | internal/oas/spec.go:277-299 | A nullable type constraint accepts what the widened one accepts. |
| `Acceptance.BoundKept` | internal/oas/spec.go:303-318 | A bound with a boolean exclusive flag accepts the numbers its rewritten pair of keywords accepts, for both lower and upper bounds. |
| `Normalise.DeleteGet` | internal/oas/spec.go:320-327 | Deleting a key removes it and moves no other value. |
| `Acceptance.FieldKept` | internal/oas/spec.go:262-267 | Property maps are never read as keywords: the schema a field answers to is the rewrite of the one it answered to. |
| `Router.Router.Match` | internal/router/router.go:144-182 | `Match` answers exactly what the flat list of registered routes says: the selected shape decides path-matched, Allow, found, HEAD falling back to GET, payload and parameters. |
| `Router.MatchesUnique` | internal/router/router.go:144-182 | The flat reading leaves no choice: at most one answer meets it. |
| `Router.SelectsUnique` | internal/router/router.go:184-206 | At most one registered shape is selected: it fits the path and is first in static-before-parameter order, left to right. |
| `Router.Router.WalkFindsBest` | internal/router/router.go:187-206 | The backtracking walk finds the selected shape below a node, with its captures, and fails only when nothing below fits. |
| `Router.Router.Add` | internal/router/router.go:90-126 | A route joins the list exactly when its verb and shape are free; a refused one changes nothing and is told which earlier route it meets. |
| `Router.Router.Descend` | internal/router/router.go:93-111 | The descent reaches the template's node and collects its parameter names; a shape the trie already has changes nothing. |
| `Router.Router.Grow` | internal/router/router.go:93-111 | A new child node leaves the trie standing for the same list of routes. |
| `Router.Router.Attach` | internal/router/router.go:121-125 | Storing the entry, the sorted method and the template key makes the trie stand for the list with the route appended. |
| `Router.Router.Zip` | internal/router/router.go:168-177 | Captured values get the names of the route that matched, in order, each the text its segment encodes, or the segment itself where it encodes nothing. |
| `Router.MatchReads` | internal/router/router.go:144-182 | What a match found reads every parameter of its template: under the name in the braces, v where the segment is the escaped form of v, the segment itself where it cannot be decoded; literals agree and the method is the request's, or GET for HEAD. |
| `Router.HeadFallsBack` | internal/router/router.go:144-166 | At the selected shape a method is found if and only if it has a route there, or it is HEAD and GET has one, and the answer is that route's. |
| `Router.Inserted` | internal/router/router.go:123-124 | Appending a method and sorting keeps the list strictly ascending with exactly one more element. |
| `Router.RouteIsServed` | internal/router/router.go:144-206 | Any path that instantiates a route's template clear of the literals other routes have at its parameters is answered from that route. |
| `Paths.BeforeTotal` | internal/router/router.go:184-206 | Two different shapes that fit one path are ordered, one way only. |
| `Paths.NormaliseIsShape` | internal/router/router.go:228-236 | Two templates have the same normal form if and only if they have the same shape. |
| `Paths.TemplateKeyInjective` | internal/router/router.go:119-125 | Template keys of space-free verbs are equal only for the same verb and shape. |
| `Paths.NamesMatchCaptures` | internal/router/router.go:167-177 | A template has as many parameter names as its match captures values. |
| `Paths.ParamText` | internal/router/router.go:218-224 | A parameter is a name in braces. |
| `Paths.TrimExactly` | internal/router/router.go:208-216 | Trimming takes off the slashes at both ends and nothing else. |
| `Substitute.UpstreamPath` | internal/runtime/build.go:448-452 | The path sent upstream has the template's segments, literals untouched, each captured parameter replaced by one segment that decodes to its value; an empty template becomes "/" once anything was captured. |
| `Substitute.SubstituteParams` | internal/runtime/build.go:500-517 | The loop over the segment array computes the filled-in template, "/" if nothing is left. |
| `Substitute.FilledIsFaithful` | internal/runtime/build.go:500-517 | Filling in keeps the segment count and is faithful at every segment. |
| `Substitute.Get` | internal/router/router.go:27-34 | The first parameter of a name is returned, and none only when no parameter has it. |
| `Substitute.MatchThenSubstitute` | internal/runtime/build.go:446-517 | For a route that passes the parameter check, match then substitute leaves literals untouched and no parameter open, and sends for each parameter a segment that decodes to the same bytes as what the request has at the first place of that parameter, or to that segment itself where it does not decode. |
| `Substitute.MatchedParamsFit` | internal/router/router.go:167-181 | What a match captures is never empty and stays bytes, decoded or not. |
| `Substitute.TemplateParamsAreNames` | internal/routetable/routetable.go:374-382 | The parameter check and the router read the same names off a template. |
| `Escaping.UnescapeInvertsEscape` | internal/runtime/build.go:508-510 | A percent-encoded segment (section 2.1 of RFC 3986) decodes to the value it was made from. |
| `Escaping.EscapeExactly` | internal/runtime/build.go:508-510 | Encoding goes byte by byte: letters, digits and - _ . ~ $ & + : = @ stay, any other byte becomes % and two capital hexadecimal digits. |
| `Escaping.UnescapeExactly` | internal/router/router.go:173-175 | Decoding goes from the left: % needs two hexadecimal digits of either case and gives the byte they spell, anything else stands for itself. |
| `Escaping.EscapedIsOneSegment` | internal/runtime/build.go:508-510 | An escaped value contains no slash and cannot look like a parameter. |
| `Escaping.UnescapeKeepsBytes` | internal/router/router.go:173-175 | Decoding yields bytes and never empties a non-empty value. |
| `RouteTable.Build` | internal/routetable/routetable.go:97-259 | The build succeeds exactly when every entry resolves to some operation, every upstream parameter is provided, no (method, path) is claimed twice, hidden or not, and the exposed operations merge; the published slots are exactly the non-hidden routes; a refusal names the culprit, and the merger never meets a collision. |
| `RouteTable.RouteComes` | internal/routetable/routetable.go:121-174 | Every route of a built table comes from an operation that some entry chooses and does not disable: method, upstream path and id are the operation's own, the gateway path is the override's or the mounted one, middleware, backend, source, gateway id and hiding as configured. |
| `RouteTable.ExposedComes` | internal/routetable/routetable.go:121-174 | Every such operation has its route in the table. |
| `RouteTable.ResolvedExactly` | internal/routetable/routetable.go:103-184 | An entry is resolved if and only if its backend and spec exist, no pattern fails and it chooses an operation it does not disable. |
| `RouteTable.SelectOps` | internal/routetable/routetable.go:121-174 | One entry's operations become routes in order when selected and not disabled; hidden ones become routes but are not exposed. |
| `RouteTable.ResolveExpose` | internal/routetable/routetable.go:103-184 | An entry is refused exactly for an unknown backend, a missing spec, a bad pattern or an empty selection, and the error says which. |
| `RouteTable.CheckAll` | internal/routetable/routetable.go:189-195 | Passes exactly when every upstream parameter is provided by its gateway path; otherwise names a route and a parameter it misses. |
| `RouteTable.ClaimAll` | internal/routetable/routetable.go:197-212 | Passes exactly when no two routes share method and path; otherwise names the two that clash. |
| `RouteTable.ExposedSlots` | internal/routetable/routetable.go:166-177 | A slot is among the merged operations' slots if and only if some non-hidden route has it. |
| `RouteTable.ExposedApart` | internal/routetable/routetable.go:197-212 | Routes that passed the claim check give the merger distinct slots. |
| `RouteTable.MethodsByPath` | internal/routetable/routetable.go:241-249 | Every path lists exactly the methods served there, sorted. |
| `RouteTable.SortRoutes` | internal/routetable/routetable.go:234-239 | The table is a permutation of the routes sorted by path, then method. |
| `RouteTable.SortedByPath` | internal/routetable/routetable.go:234-239 | Of two routes the one listed first has the smaller path, or the same path and not the greater method. |
| `RouteTable.OneOrder` | internal/routetable/routetable.go:234-239 | Only one permutation of routes that differ in path or method is sorted, so the sort is the stable one. |
| `RouteTable.MountKeepsParams` | internal/routetable/routetable.go:330-358 | Mounting a path elsewhere can lose only the parameters of the prefix it strips. |
| `RouteTable.StripExactly` | internal/routetable/routetable.go:332-344 | A path below the prefix loses it, the prefix becomes the root, any other path stays, and a slash at the end of the prefix makes no difference. |
| `RouteTable.JoinExactly` | internal/routetable/routetable.go:346-358 | Joining puts one slash between mount and path, and none behind a mount without a path. |
| `RouteTable.StripUndoesJoin` | internal/routetable/routetable.go:332-358 | What is mounted under a prefix and stripped of it is what it was. |
| `RouteTable.SanitiseExactly` | internal/routetable/routetable.go:282-299 | A gateway operation id keeps letters and digits of the backend's name and has an underscore for anything else. |
| `Serving.BuildRouter` | internal/runtime/build.go:253-275 | The router serves the table's routes and one preflight route per path that needs one, and is built exactly when no two templates of one shape share a verb and each shape needing a preflight route needs it under one spelling with OPTIONS unserved. |
| `ServingLimits.TwoSpellingsRefused` | internal/runtime/build.go:346-377 | No router can be built for any table with two routes of one shape whose parameters differ in name, both using CORS and neither path with an OPTIONS route of its own. |
| `ServingLimits.EnumsRefused` | internal/runtime/build.go:346-377 | A configuration that exposes GET /enums/{id} and POST /enums/{pk} with CORS is one `Build` accepts, no two routes of its table clash, and no router can be built for it. |
| `Serving.CollectPaths` | internal/runtime/build.go:320-344 | Each path is known with exactly its methods and exactly the CORS middleware its routes use, each once. |
| `Serving.AddPreflights` | internal/runtime/build.go:346-377 | Exactly the paths with CORS and no OPTIONS route get one, carrying exactly the CORS middleware used there, each once. |
| `Serving.PreflightsExactly` | internal/runtime/build.go:320-377 | A path gets an added route if and only if some route there uses a CORS middleware and none serves OPTIONS; it is an OPTIONS route with exactly the CORS middleware used there. |
| `Serving.TableIsServed` | internal/runtime/build.go:253-265 | Every table route, hidden or not, is the answer to its own template instantiated clear of other routes' literals. |
| `Serving.Forward` | internal/runtime/build.go:446-452 | From request to upstream path: a route is forwarded to exactly when the match finds one that is no preflight, and every segment of its upstream template is carried, each parameter as one segment that decodes to what the request had in its place. |
| `Serving.SentFromOperation` | internal/runtime/build.go:446-517 | With a built table what is sent is carried from the path the backend's own document gives the operation. |
| `Serving.PreflightsUnpublished` | internal/runtime/build.go:267-275 | A path that needs a preflight route has no OPTIONS operation in the published document. |
| `Drain.ClosedUnderNobody` | internal/runtime/build.go:539-593 | A runtime closed by Retire's own check, by the poll tick or by a release that decremented after retired was set has no holder, at the close and ever after; closed by an earlier decrement, its holders acquired entirely between that decrement and the retired store; only grace expiry is exempt. |
| `Drain.RetiredGainsNoHolder` | internal/runtime/build.go:539-546 | Once retired, no continuation of the run brings a new holder. |
| `Drain.NoLostClose` | internal/runtime/build.go:548-581 | Once some Retire is past its check, a state with count zero and no thread mid-release is closed, even if the poller never ticks. |
| `Drain.CountIsExact` | internal/runtime/build.go:539-552 | The count equals the number of threads between their increment and their decrement. |
| `Drain.ClosedAtMostOnce` | internal/runtime/build.go:583-593 | The close body runs at most once and only after retired was set. |
| `Drain.RetireCloses` | internal/runtime/build.go:554-585 | In any run a retiring thread can close the runtime: at its own look or at a poll if nobody is counted, and when the grace period ends whoever is; a poll that finds someone waits on. |
| `Drain.ClosedWhileHeld` | internal/runtime/build.go:548-552 | A concrete schedule in which an early decrement closes a runtime another thread holds. |
| `Drain.StepKeeps` | internal/runtime/build.go:539-593 | Every atomic step of every thread keeps the invariant behind these theorems. |
| `Swap.NotReadyTakesEightSwaps` | internal/runtime/server.go:153-170 | A request is told "not ready" only if at least eight swaps completed during its own loop. |
| `Swap.TurnedAwayAfterEight` | internal/runtime/server.go:153-170 | Eight swaps, one between each load and its acquire, do turn a request away: the bound is exact. |
| `Swap.GenerationsIncrease` | internal/runtime/server.go:107-145 | Published generations strictly increase, however many builds failed in between. |
| `Swap.FailedReloadKeepsServing` | internal/runtime/server.go:107-128 | A reload that fails at any stage leaves what was current when it began, with its settings, unretired. |
| `Swap.CurrentIsServable` | internal/runtime/server.go:130-144 | The current runtime has not been retired. |
| `Swap.NoneLeftBehind` | internal/runtime/server.go:107-145 | Between reloads every runtime ever built, by successful or failed reloads, is current or retired. |
| `Swap.StepKeeps` | internal/runtime/server.go:107-170 | Every step of the reload and of every request keeps the invariant behind these theorems. |
| `Limiter.MemoryLimiter.Allow` | internal/store/store.go:153-192 | The called key's window rolls, decides and counts as `Step` says; every other key is untouched. |
| `Limiter.CallExactly` | internal/store/store.go:153-192 | Over any run: the window in force follows the last one until a whole one went by without a call; a call is admitted if and only if the admissions of this window plus those of the one before, weighted by the part still covered, truncate to less than the limit; remaining is what is left, and a refusal says how long this window lasts. |
| `Limiter.FirstCall` | internal/store/store.go:153-192 | The first call of a key opens a window and is admitted if the limit is positive. |
| `Limiter.RollInvisible` | internal/store/store.go:164-173 | The estimate at any later time is the same before and after a roll or reset. |
| `Limiter.EstimateFalls` | internal/store/store.go:173-177 | Between admissions the estimate never rises. |
| `Limiter.EstimateBounded` | internal/store/store.go:173-187 | The estimate stays below limit + 1 at every call and at every time after it. |
| `Limiter.WindowBounded` | internal/store/store.go:164-192 | No window admits more than the limit. |
| `Limiter.SpanBounded` | internal/store/store.go:153-192 | Any half-open span of one window length admits at most twice the limit. |
| `Limiter.SpanBoundReached` | internal/store/store.go:153-192 | The bound is met for every positive limit once the window is longer than twice the limit. |
| `Limiter.RemainingExact` | internal/store/store.go:187-191 | After an admission reporting k remaining, exactly k more calls at that instant are admitted, counting down, and the next is refused. |
| `Limiter.RetryInWindow` | internal/store/store.go:179-185 | A refusal's retry time is in (0, window]. |
| `Limiter.KeysApart` | internal/store/store.go:155-163 | A key's window depends only on the calls made with that key. |
| `Breaker.Breaker.Allow` | internal/proxy/breaker.go:89-111 | Closed admits a call, open refuses, half-open admits one probe and refuses while it is out; a zero ratio always admits without a report. |
| `Breaker.Breaker.MaybeHalfOpen` | internal/proxy/breaker.go:115-120 | An open breaker whose timer ran out becomes half-open and not probing; otherwise nothing changes. |
| `Breaker.Breaker.Report` | internal/proxy/breaker.go:122-143 | A call outcome is counted; enough outcomes with the failure share reached trip, twice the minimum without tripping reset. |
| `Breaker.Breaker.ReportProbe` | internal/proxy/breaker.go:145-155 | A probe's success closes and resets, its failure trips, whatever state the report finds. |
| `Breaker.Breaker.Trip` | internal/proxy/breaker.go:157-161 | Tripping opens, zeroes the counters and notes the time. |
| `Breaker.Breaker.constructor` | internal/proxy/breaker.go:60-75 | Settings are taken as given, 20 outcomes and ten seconds standing in for values that are not positive. |
| `Breaker.Breaker.State` | internal/proxy/breaker.go:77-85 | Asking for the state promotes an expired open breaker and reports the result. |
| `Breaker.CountersExact` | internal/proxy/breaker.go:122-143 | Over any run the counters are exactly the call outcomes since the last reset, fewer than twice the minimum, with the failure share below the ratio once the minimum is reached. |
| `Breaker.TripsExactly` | internal/proxy/breaker.go:128-136 | Outcomes trip if and only if there are at least the minimum and the failures are at least the given share, a share met exactly included. |
| `Breaker.OutcomeExactly` | internal/proxy/breaker.go:122-143 | In any run a call outcome opens the breaker from now if those since the last reset now trip, resets at twice the minimum otherwise, and is remembered otherwise. |
| `Breaker.AdmitsExactly` | internal/proxy/breaker.go:89-120 | A call is let in when closed, as a probe when half-open with none out or openFor after the trip, and never otherwise. |
| `Breaker.OpensForAReason` | internal/proxy/breaker.go:122-161 | A breaker that is not open opens if and only if a probe failed or the outcomes since the last reset reach the minimum and the ratio. |
| `Breaker.ShutAfterTrip` | internal/proxy/breaker.go:89-120 | For openFor after a trip no call is admitted, unless a probe let in earlier reports success. |
| `Breaker.TripOpens` | internal/proxy/breaker.go:157-161 | A tripping report leaves the breaker open from that moment. |
| `Breaker.OneProbePerEpisode` | internal/proxy/breaker.go:89-120 | Each half-open episode admits at most one probe, whatever is reported late. |
| `Breaker.OneProbeOverall` | internal/proxy/breaker.go:89-161 | Where fewer than the minimum of calls are outstanding at each trip, at most one probe is outstanding, and only while half-open. |
| `Breaker.OneProbeExactly` | internal/proxy/breaker.go:89-161 | At a trip of such a run, fewer calls than the minimum are outstanding if and only if at most one probe is ever outstanding until a probe succeeds. |
| `Breaker.OnlyProbesRescue` | internal/proxy/breaker.go:122-161 | From open or half-open a step closes the breaker if and only if it is the report of a successful probe: this is what "until a probe succeeds" means in the runs of the two theorems about probes. |
| `Breaker.TwoProbesFollow` | internal/proxy/breaker.go:89-161 | For every setting, a trip of any run with the minimum of calls outstanding can go on to two outstanding probes with no probe success in between. |
| `Breaker.TwoProbesOut` | internal/proxy/breaker.go:122-161 | A concrete run with a late failure in which two probes are outstanding. |
| `ScanGuard.StoresAgreeExactly` | internal/scanguard/memory.go:47-118 | The memory store and the Redis store give equal answers to a sequence of Miss, Ban, Unban, BannedFor and List in clock order if and only if no miss comes with a window that decides otherwise than the one its count began under. |
| `ScanGuard.StoresBisimilar` | internal/scanguard/memory.go:47-118 | With one window for every miss they cannot be told apart at all. |
| `ScanGuard.MissCountsExactly` | internal/scanguard/redis.go:44-48 | A miss is counted alike if and only if both windows decide alike whether the count has run out. |
| `ScanGuard.StepAlike` | internal/scanguard/redis.go:44-136 | One request to both: the same answer if and only if, on a miss, the windows agree, and then the stores still remember the same of every client. |
| `ScanGuard.StillAlike` | internal/scanguard/redis.go:44-76 | As time passes, what lapses in one store lapses in the other. |
| `ScanGuard.ChangedWindowMiscounts` | internal/scanguard/redis.go:44-48 | A concrete pair of misses under different windows that the stores count differently. |
| `ScanGuard.BanLength` | internal/scanguard/scanguard.go:59-68 | The loop equals min(base * 2^(strikes-1), max), and no doubling leaves 64 bits while the cap is at most 2^62. |
| `ScanGuard.ScriptLength` | internal/scanguard/redis.go:56-62 | The ban script's loop equals the same, within the integers a double holds exactly. |
| `ScanGuard.MemoryStore.Miss` | internal/scanguard/memory.go:64-75 | A miss counts in the running window or starts one. |
| `ScanGuard.MemoryStore.Ban` | internal/scanguard/memory.go:77-94 | A ban adds a strike, forgetting lapsed ones, lasts its length, and clears the client's misses. |
| `ScanGuard.MemoryStore.Unban` | internal/scanguard/memory.go:96-104 | Unban forgets ban, strikes and misses, and says whether a ban was in force. |
| `ScanGuard.MemoryStore.BannedFor` | internal/scanguard/memory.go:47-60 | What is left of a ban, dropping one that lapsed. |
| `ScanGuard.MemoryStore.List` | internal/scanguard/memory.go:106-118 | Exactly the bans in force, each once, the latest first. |
| `ScanGuard.RedisStore.Miss` | internal/scanguard/redis.go:44-48 | The miss script: increment, and set the expiry on the first miss. |
| `ScanGuard.RedisStore.Ban` | internal/scanguard/redis.go:53-68 | The ban script: count the strike, size the ban, set both expiries, store the ban, delete the misses. |
| `ScanGuard.RedisStore.Unban` | internal/scanguard/redis.go:98-107 | All three keys are deleted, and a live ban is reported. |
| `ScanGuard.RedisStore.BannedFor` | internal/scanguard/redis.go:70-76 | The ban key's time to live, zero if there is none. |
| `ScanGuard.RedisStore.List` | internal/scanguard/redis.go:109-136 | Exactly the stored bans whose key is live and whose end lies ahead, each once, the latest first. |
| `ScanGuard.Guard.Miss` | internal/scanguard/scanguard.go:168-197 | A client is banned exactly for a trap path or the miss that reaches the threshold, by one more strike than it had left, from now for the length those strikes earn; no other client is affected; an ignored client changes nothing. |
| `ScanGuard.KthBan` | internal/scanguard/scanguard.go:59-68 | Over any run in which each ban comes within max after the end of the one before and none is lifted, the k-th ban of a client is its k-th strike and lasts min(base * 2^(k-1), max). |
| `ScanGuard.BanFollows` | internal/scanguard/memory.go:77-94 | Over any run: a ban within max after the end of the client's last one lasts min(twice as long, max) with one strike more; any other, and any after an unban, lasts min(base, max) with one strike. |
| `ScanGuard.BannedExactly` | internal/scanguard/memory.go:47-60 | Over any run in clock order a client is banned for what is left of its last ban, unless that was lifted. |
| `ScanGuard.ListedExactly` | internal/scanguard/memory.go:106-118 | And exactly those bans are listed. |
| `ScanGuard.MissesCleared` | internal/scanguard/memory.go:77-104 | After a ban or an unban the client's next miss is its first. |
| `ScanGuard.Guard.Blocked` | internal/scanguard/scanguard.go:154-165 | Blocked exactly while some of a ban is left; an ignored client never is. |
| `ScanGuard.MissesAddUp` | internal/scanguard/memory.go:64-75 | Within one window of the first, the n-th miss is counted as the n-th. |

## Left out

- Fingerprint.HashComponent: the digest is the structure it digests, so equal fingerprints
  are equal structures; the string the source hashes joins keys and values without escaping and
  the digest is cut to eight bytes, and neither is injective.
- Foresight.OperationExactly: a name that needed a number, a given-up slot that another group
  or a scheme takes, and an operation that reads what a scheme covers are set aside; what a
  reference then unfolds to depends on the newcomer.
- Operations.FoldPathParams: an operation's own `parameters` that are not a list, which no
  valid description has, are not folded into.
- Operations.FoldedList: no parameter's name or location contains NUL, which the source puts
  between the two.
- Documents.TwinsShare: keys are unique in the mappings compared.
- Acceptance.AcceptanceKept: reads combinators, properties, items, negation, types and bounds;
  assertions the two versions share are left to the reader, type is a text or a list of texts,
  and named properties are mappings.
- Normalise.NormaliseIdempotent: keys are unique in every mapping.
- Breaker.OneProbeExactly: over `Rules`, of which `RulesOf` makes one from each setting of the
  source.
- ScanGuard.RedisStore.Unban: the two deletions are one step, and a key is gone as soon as its
  time to live has run down to zero.
- ScanGuard.MemoryStore.List: the order among bans begun at the same moment is unspecified in
  the source and here.
- Limiter.MemoryLimiter.Allow: estimates are reals, calls come in clock order and a key's
  window is never evicted; the Redis limiter is not part of this model.
- Swap.NotReadyTakesEightSwaps: shutdown, which retires the current runtime, is not among the
  steps.
- Router.Router.Add: method names are upper-cased as ASCII, and the earlier route is named
  when no verb contains a space.
- References by name other than `$ref` are plain data in an unfolding, as they are to the
  source, which copies them as they stand: the scheme names of an operation's `security`, the
  values of a discriminator's `mapping`, the `operationId` of a link.
- Node trees are values: deep copies are the identity, and in-place updates and aliasing of
  nodes are not captured. Mapping keys are taken to be unique where a proof needs it, tags of
  collections, styles and comments are absent, and an operation's own `parameters` are a list.
- Info, servers and document-level security of the assembled document are plain copies.
- Include and exclude globs and trap paths are answers given from outside; client addresses
  arrive normalised.
- Timeouts, the sample route and the advertised methods of a preflight route, and the payload
  handlers of routes are carried or dropped without interpretation.
- Loading, bundling and rendering of documents, fetching, configuration parsing, health checks,
  metrics, logging and all sockets are outside the model; the path theorem ends at the escaped
  template.
- State-change callbacks of the breaker and the eviction of bounded tables are absent.
