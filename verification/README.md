# Kernel backports: verified models of the core algorithms

This project models the algorithmic core of the kernel backports tree in Dafny 4.11 and proves
what that core is for. `dafny verify dfyconfig.toml` checks all of it.

| part | files | source |
|---|---|---|
| resizable hash table as a concurrent protocol | `RhashModel`, `RhashProof`, `RhashMove`, `RhashDrop`, `RhashSteps`, `RhashTheorems` | `compat/lib-rhashtable.c`, `include/linux/backport-rhashtable.h` |
| nested bucket directory | `NestedBuckets` | `compat/lib-rhashtable.c` |
| Kconfig expression rewriter | `KconfExpr`, `KconfDups`, `KconfTransform` | `kconf/expr.c` |
| Kconfig symbol evaluator | `KconfEval` | `kconf/symbol.c` |
| Kconfig cycle check | `KconfCycle` | `kconf/symbol.c` |
| Kconfig menu tree | `MenuTree` | `kconf/menu.c`, `kconf/confdata.c` |
| ASN.1 BER decoder | `Asn1Scan`, `Asn1Machine`, `Asn1Exact`, `Asn1Slips` | `compat/lib-asn1_decoder.c` |
| scatter-gather copying | `ScatterGather` | `compat/compat-3.9.c`, `compat/backport-3.11.c` |
| ARC4 | `Arc4` | `compat/lib-crypto-arc4.c` |
| reference counts | `Refcount` | `compat/lib-refcount.c` |

## How the parts are modelled

**Hash table.** A state holds the chain of tables, the memory (bucket heads, `next` pointers,
bucket locks), and the program counters of any number of inserters, removers and readers and of the
rehash worker. Each action is one atomic access: take or drop a bucket lock, read `future_tbl`, read
one `next` pointer, prime a new entry, link it, attach a table, repoint the last entry, join it to
the new bucket, unlink it, publish the new table, cut an entry out of its chain. When to grow,
whether a chain counts as too long and whether an attach is tried are left open, so the theorems
hold for every policy. `home`, the bucket contents and the list of removed entries are auxiliary;
`RhashTheorems.Placement` ties them to the pointers in memory. In the middle of the worker's move the
chains in memory overlap; the invariant names each of these intermediate shapes. A reader may stand
on an entry that is removed under it: its `next` still leads on, possibly through further removed
entries, and the invariant speaks about where that walk lands. An object is not inserted and removed
at the same time, and a removed object is not inserted again.

**Kconfig expressions.** A valuation gives every symbol a tristate value and every pair of symbols
the outcome of comparing their strings. `WellFormed` is the single statement of what a Kconfig
valuation satisfies. `expr_eliminate_dups1` rewrites the tree under two moving cursors; the model
keeps the cursors as paths into one tree, so that the second cursor sees what the first has
rewritten. The `while (1)` of `expr_eliminate_dups` is a loop whose measure is the node count.

**Evaluator.** `Plain` evaluates without memory by descent along a rank that falls from each symbol
to those it reads. Such a rank exists exactly if the graph of these reads has no cycle
(`KconfCycle.RankedIfAcyclic`); `KconfCycle.CheckConfig` says what the cycle check tells about it.
The class `Evaluator` has the code's valid bits, sets them before recursing, and terminates on
cyclic graphs as well; on acyclic ones whatever is valid equals `Plain`.

**Menu tree.** Nodes are numbered in the order in which the parser adds them, which is the
preorder of the tree it builds (`MenuTree.Builder` proves that). The pointers `next`, `list` and
`parent` are updated in place as in the code; the outcome of the dependency tests between a symbol
and a following entry is a parameter, so the results hold for every such outcome. Each pair is
tested at most once, so a function of the pair loses nothing.

**Decoder.** The machine takes the callbacks' return values as input. The auxiliary flag `indef`
in a stack frame records what the code encodes as a saved end of 0; the invariant says that the
encoding never confuses the two. The auxiliary marks, one for each open element, count the elements
with tag octet 0 that were matched in it and note a JUMP into a primitive element. `Asn1Exact` runs
the scanner of `Asn1Scan` alongside the machine: as long as the marks are clear both are at the same
position and depth, and each tag octet 0 puts the scanner one level further out for good.

## Where the code and its comments or promises differ

- `compat/lib-asn1_decoder.c:236-240` says that an opcode without the CONS bit permits primitive and
  constructed data and that CONS is otherwise mandatory. The test after it does the opposite: with
  the bit set in the opcode the bit of the data is ignored, and without it the tags must be equal.
  The model follows the code (`Asn1Machine.TagTestOnBits`).
- `kconf/symbol.c:532-566` skips the range check if the new value is the current one. Setting a
  symbol to its own value is then accepted and can change it at the next full recalculation: a
  tristate with prompt condition `m` and default `y` is `y`, and becomes `m` once `y` is recorded as
  the user's value (`KconfEval.SameValueCanChange`). `KconfEval.SetSameValue` gives the exact condition.
- `kconf/expr.c:487-579` joins `(a = x) && (a != z)` for different constants to `a = x`. This is
  exact if and only if `a` does not equal both (`KconfDups.JoinEqNeqExact`); a tristate that is `y`
  equals the constants `y` and `"2"` (`KconfDups.PlainConstantsNeeded`). The whole rewriter keeps
  the value whenever no tristate equals two different constants it is compared with
  (`KconfDups.EliminateDups`).
- `kconf/expr.c:686-841` turns `!(a < b)` into `a >= b`, which is exact if and only if the pair can
  be ordered (`KconfTransform.FlipExact`, `KconfTransform.FlipCanChange`). Symbols of type
  `S_OTHER`, which cannot, exist (`kconf/confdata.c:368`). Only comparisons under an odd number of
  negations matter (`KconfTransform.TransformKeepsValue`).
- `compat/lib-asn1_decoder.c:380-444` hands the END action of an indefinite-length element all
  octets before the first 00 00 that the machine meets at its own position. These are the contents
  if and only if no element with tag octet 0 was matched in it (`Asn1Exact.SliceExact`), provided
  every JUMP asks for a constructed element: MATCH_ANY accepts the end-of-contents octets themselves
  as an element (`Asn1Slips.ZeroTagSlips`), and a MATCH_JUMP on a primitive tag never steps over its
  contents, so that zeros inside an octet string end the element around it (`Asn1Slips.JumpSlips`).
  A JUMP on a primitive element with empty contents does no harm. Both conditions can be read off
  the bytecode, and then every slice on every input is right (`Asn1Exact.SliceIsContents`).
- `kconf/symbol.c:1241-1273` follows the condition of each imply property of a symbol, which the
  evaluator does not read for that symbol, and not the expression of its weak reverse dependency,
  which `sym_calc_visibility` evaluates. So the check errs both ways: two symbols that imply each
  other are a cycle for the evaluator and not reported (`KconfCycle.ImplyCycleUnreported`); with
  `A` implying `B` if `C` and `C` depending on `A` a cycle is reported and the rank A, C, B orders
  all reads (`KconfCycle.ImplyConditionReported`). A report and a missing rank coincide if and only
  if the edges that both share have a cycle, or some imply condition leads back to its symbol exactly
  if some implied expression leads back to its own (`KconfCycle.AgreeExact`). Where imply conditions
  read only what the evaluator reads anyway, a report means that there is no rank; where implied
  expressions read only what the check follows anyway, no report means that its finishing order is
  one (`KconfCycle.CheckConfig`).

## Model

| member | source | states |
|---|---|---|
| `RhashTheorems.RunKeepsInv` | compat/lib-rhashtable.c:202-340 | the invariant holds in every state of every interleaving of inserters, removers, table attaches, the rehash worker and readers |
| `RhashSteps.StepKeepsInv` | compat/lib-rhashtable.c:215-340 | every enabled atomic step, of any thread, keeps the invariant |
| `RhashTheorems.Placement` | compat/lib-rhashtable.c:529-620 | in every reachable state the object of every successful insert is linked or has been removed, each linked entry is in the bucket of its key in exactly one table reachable from ht->tbl, and outside the worker's own move following the pointers of any bucket gives exactly its entries, once each, up to its own end marker |
| `RhashTheorems.PublishedTableEmpty` | compat/lib-rhashtable.c:303-340 | when the new table is published every bucket of the old one is empty in memory and every entry lies in a later table |
| `RhashMove.Drained` | compat/lib-rhashtable.c:303-340 | once the worker has passed the last bucket, every entry anywhere lies in a later table |
| `RhashTheorems.OnlyForward` | compat/lib-rhashtable.c:215-263 | an entry, once linked, stays linked and only moves to later tables over any run, until it is removed |
| `RhashTheorems.NoDuplicateInsert` | compat/lib-rhashtable.c:478-620 | in no interleaving do two inserts of equal keys both succeed, unless one of the two objects has been removed |
| `RhashTheorems.RefusedForLinked` | compat/lib-rhashtable.c:478-527 | an insert that leaves with -EEXIST has met another entry with its key, which is still linked when the bucket lock is released |
| `RhashProof.LastTable` | compat/lib-rhashtable.c:202-213 | an inserter that reads no future table is in the last table, which is not being drained, and every entry with its key is in that table |
| `RhashProof.ScanComplete` | compat/lib-rhashtable.c:478-527 | a scan under the bucket lock that meets the end marker has seen the whole bucket: its key is neither in this table nor in an earlier one |
| `RhashMove.KeepWRepoint` | compat/lib-rhashtable.c:247-251 | pointing the moved entry at the new chain before it is linked there, while old readers still pass through it, keeps the invariant |
| `RhashMove.KeepWJoin` | compat/lib-rhashtable.c:251-253 | linking the last entry of the old chain into the new bucket keeps the invariant, readers included |
| `RhashMove.KeepWUnlink` | compat/lib-rhashtable.c:255-259 | unlinking the entry from the old chain after it has been linked into the new one keeps the invariant |
| `RhashMove.FollowAhead` | compat/lib-rhashtable.c:215-263 | one pointer read by a lock-free reader never passes an entry it has to find, whatever the worker has done in between |
| `RhashTheorems.ReaderNeverMisses` | include/linux/backport-rhashtable.h:589-627 | a lock-free lookup reports a miss only if every entry with its key that was linked when it read ht->tbl has been removed since, and a hit returns an entry with its key that was linked at some time since then |
| `RhashTheorems.MustStays` | include/linux/backport-rhashtable.h:589-627 | until it ends, a lookup is answerable for the entries linked with its key when it read ht->tbl that have not been removed since |
| `RhashTheorems.RemoveFindsLinked` | include/linux/backport-rhashtable.h:1075-1099 | a remove of an entry that was linked when it read ht->tbl returns -ENOENT only if another remove has taken the entry, whatever inserters, the worker and other removers do meanwhile |
| `RhashTheorems.GivesUp` | include/linux/backport-rhashtable.h:1086-1094 | a remover that has released the bucket of its key and sees no future table has not missed a linked entry |
| `RhashTheorems.CutOnce` | include/linux/backport-rhashtable.h:994-1072 | over any run an entry is removed at most once |
| `RhashDrop.KeepDCut` | include/linux/backport-rhashtable.h:1040-1059 | cutting an entry out of its chain, with readers standing on it and the worker moving others, keeps the invariant |
| `RhashDrop.NotInFlight` | compat/lib-rhashtable.c:247-259 | the entry that the worker has joined to the new bucket and not yet unlinked from the old one cannot be removed |
| `RhashDrop.CutReader` | include/linux/backport-rhashtable.h:1052-1058 | a reader keeps every entry that it must find in front of it when another entry is removed, even the one it stands on |
| `RhashMove.FollowRemoved` | include/linux/backport-rhashtable.h:589-627 | a pointer read at a removed entry keeps every entry that must be found in front of the reader |
| `NestedBuckets.NestDivides` | compat/lib-rhashtable.c:161-161 | the first-level width nest makes the remaining bits a positive multiple of shift |
| `NestedBuckets.PathsSeparate` | compat/lib-rhashtable.c:1167-1193 | index paths of hashes below the size have equal length, indices in range, and differ for different hashes |
| `NestedBuckets.WalkInjective` | compat/lib-rhashtable.c:1167-1193 | in a directory whose pages form a tree different paths reach different pages |
| `NestedBuckets.AddressesLikeArray` | compat/lib-rhashtable.c:1167-1233 | like elements of a flat array the slots of different hashes differ, are in range, hold no page pointer, and do not move while the directory grows |
| `NestedBuckets.Directory.constructor` | compat/lib-rhashtable.c:138-164 | a new directory is a tree of one page, the root |
| `NestedBuckets.Directory.Lookup` | compat/lib-rhashtable.c:1167-1193 | the lookup loop returns exactly the slot its path addresses, or nothing if a page on the way is missing |
| `NestedBuckets.Directory.Alloc` | compat/lib-rhashtable.c:113-136 | the page behind an entry is returned, created if missing and initialised if it is a leaf, nothing if the allocation fails; whoever wins the compare-and-exchange, the pages still form a tree with levels, the leaves are exactly the initialised pages and no existing link changes |
| `NestedBuckets.Directory.BucketIsReady` | compat/lib-rhashtable.c:113-136 | the bucket that a hash addresses always lies in a page whose bucket heads have been initialised |
| `NestedBuckets.Directory.Insert` | compat/lib-rhashtable.c:1207-1234 | the insert loop creates missing pages, keeps all existing links, and returns exactly what the lookup of the same hash then returns, nothing if an allocation failed |
| `KconfExpr.YnKeepsValue` | kconf/expr.c:308-389 | removing y and n operands keeps the value under every valuation |
| `KconfExpr.YnNeverGrows` | kconf/expr.c:308-389 | removing y and n operands never adds nodes |
| `KconfExpr.StripCommon` | kconf/expr.c:149-189 | common-operand elimination terminates together with expr_eq, never adds nodes and keeps the top operator |
| `KconfExpr.StripsCommonPart` | kconf/expr.c:149-189 | both sides are their stripped forms combined with one and the same common part |
| `KconfExpr.SameExprSound` | kconf/expr.c:251-295 | expressions that expr_eq calls equal have equal value under every valuation |
| `KconfExpr.SupersetTest` | kconf/menu.c:472-483 | if elimination reduces the second expression to y, the first is at most the second under every valuation, where an absent expression counts as y |
| `KconfDups.JoinOrSound` | kconf/expr.c:423-485 | a joined pair of operands has the value of their disjunction under every well-formed valuation |
| `KconfDups.JoinAndSound` | kconf/expr.c:487-579 | a joined pair of operands has the value of their conjunction under every well-formed valuation in which no tristate equals two of the constants it is compared with |
| `KconfDups.JoinShape` | kconf/expr.c:423-579 | a join is no bigger than its first operand and never introduces the operator of its level |
| `KconfDups.JoinWithin` | kconf/expr.c:423-579 | a join compares symbols only with constants they were compared with before, or y, m and n |
| `KconfDups.Pass` | kconf/expr.c:588-643 | a pass over a level terminates although it rewrites the tree under its own cursors, keeps the shape of the level and never adds nodes |
| `KconfDups.PassKeepsValue` | kconf/expr.c:588-643 | a pass keeps the value under every well-formed valuation in which no tristate equals two different constants it is compared with |
| `KconfDups.PassProgress` | kconf/expr.c:588-643 | a pass that counts no rewrite changes nothing, and one that counts a rewrite leaves a constant that eliminate_yn removes |
| `KconfDups.EliminateDups` | kconf/expr.c:656-678 | the fix-point loop terminates; its result is no bigger, admits no further rewrite, and has the same value under every well-formed valuation in which no tristate equals two different constants the input compares it with, hence under all of them if these are only y, m and n |
| `KconfDups.JoinEqNeqExact` | kconf/expr.c:487-579 | joining (a = x) with (a != z) for different constants is exact if and only if a does not equal both |
| `KconfDups.PlainConstantsNeeded` | kconf/expr.c:487-579 | an input on which a pass changes the value, because a tristate equals two spellings of one constant |
| `KconfTransform.Transform` | kconf/expr.c:686-841 | expr_transform terminates although it re-enters itself on rebuilt trees, and yields negation normal form of the same weight |
| `KconfTransform.TransformKeepsValue` | kconf/expr.c:686-841 | expr_transform keeps the value under every well-formed valuation that can order the comparisons under an odd number of negations |
| `KconfTransform.TransformPushes` | kconf/expr.c:686-841 | under every well-formed valuation, without condition, expr_transform computes the value with negations pushed to the symbols and each comparison turned around as often as it is negated |
| `KconfTransform.TransformFixpoint` | kconf/expr.c:686-841 | normal forms are exactly the expressions that expr_transform leaves unchanged, and it is idempotent |
| `KconfTransform.TransformWithin` | kconf/expr.c:686-841 | expr_transform compares symbols with no new constants, as the later passes need |
| `KconfTransform.FlipExact` | kconf/expr.c:686-841 | turning a negated comparison around is exact if and only if it is an (in)equality or the pair can be ordered |
| `KconfTransform.FlipCanChange` | kconf/expr.c:1076-1080 | !(a < b) on symbols that cannot be ordered is y, and n after expr_transform |
| `KconfTransform.RewriteMRestricts` | kconf/menu.c:81-105 | rewriting m to m && MODULES gives the value that the expression has if m counts as n without modules |
| `KconfTransform.Propagate` | kconf/menu.c:343-352 | the dependency computed for a child entry, present or not, has the value of the conjunction of the parent's and its own with m restricted by MODULES, and cannot be simplified further |
| `KconfEval.PlainSolves` | kconf/symbol.c:357-498 | evaluation by descent solves the equations of all symbols at once |
| `KconfEval.SolutionUnique` | kconf/symbol.c:357-498 | on an acyclic graph these equations have no other solution |
| `KconfEval.Evaluator.CalcExpr` | kconf/expr.c:1026-1104 | evaluating an expression with cached symbols terminates and, on acyclic graphs, returns the plain value |
| `KconfEval.Evaluator.CalcVisibility` | kconf/symbol.c:209-270 | the cached visibility, direct, reverse and implied dependency of a symbol are those of plain evaluation |
| `KconfEval.Evaluator.CalcDefault` | kconf/symbol.c:424-436 | the default branch returns the default of plain evaluation |
| `KconfEval.Evaluator.CalcValue` | kconf/symbol.c:357-498 | the memoised evaluator terminates on every graph, cyclic ones included, never clears a valid bit, and on acyclic graphs every cached state equals plain evaluation |
| `KconfEval.Evaluator.CalcAll` | kconf/symbol.c:357-498 | whatever the order of the calls, all requested symbols end with the plain value |
| `KconfEval.Evaluator.ClearAllValid` | kconf/symbol.c:500-509 | every valid bit is cleared and the change counted; then the MODULES symbol, if there is one, is valid again, on acyclic graphs whatever is valid equals plain evaluation, and what is not valid keeps its other fields |
| `KconfEval.Evaluator.SetTristate` | kconf/symbol.c:532-566 | a value is accepted exactly if it is the current one or in range; then the user value is recorded, and if it differs the change is counted and everything invalidated but what the recalculation of MODULES makes valid, which on acyclic graphs has its plain value under the new user value |
| `KconfEval.Evaluator.SetThenCalc` | kconf/symbol.c:511-566 | on an acyclic graph an accepted value is the value of the symbol after recalculation |
| `KconfEval.UserLocal` | kconf/symbol.c:412-445 | a user value changes no symbol of lower rank, and of its own symbol only the value |
| `KconfEval.SetIsExact` | kconf/symbol.c:511-530 | a value that passes the range check is exactly what plain evaluation gives afterwards |
| `KconfEval.SetSameValue` | kconf/symbol.c:532-566 | recording the current value as the user's keeps it at the next recalculation if and only if the symbol is invisible or the value does not exceed visibility raised by the reverse dependency (m counting as y where m is not allowed) |
| `KconfEval.SameValueCanChange` | kconf/symbol.c:532-566 | a configuration in which setting a symbol to its current value changes it later |
| `KconfCycle.Checker.CheckDeps` | kconf/symbol.c:1312-1344 | a visit closes reported cycles with a real path, terminates on every graph, and without a report leaves the symbol in a topological order |
| `KconfCycle.Checker.CheckSym` | kconf/symbol.c:1241-1273 | without a report every edge of the symbol has been followed |
| `KconfCycle.Checker.CheckExpr` | kconf/symbol.c:1206-1238 | without a report every symbol the expression reads has been followed |
| `KconfCycle.Checker.CheckAll` | kconf/zconf.tab.c:2269-2272 | over all symbols at least one report is made if and only if the dependency graph has a cycle |
| `KconfCycle.CheckConfig` | kconf/zconf.tab.c:2269-2272 | on a configuration a report is made exactly if what the check follows has a cycle, which agrees with there being no rank for the evaluator exactly under Agree; if imply conditions read nothing that the evaluator does not read, a report means that there is no rank; if implied expressions read nothing that the check does not follow, the finishing order of a run without a report is a rank |
| `KconfCycle.RankedIfAcyclic` | kconf/symbol.c:357-498 | some rank orders what the evaluator reads if and only if the graph of these reads has no cycle |
| `KconfCycle.AgreeExact` | kconf/symbol.c:1241-1273 | what the check follows has a cycle exactly if no rank orders the reads, if and only if the shared edges have a cycle or the way back from some imply condition and from some implied expression exist both or neither |
| `KconfCycle.CycleInSum` | kconf/symbol.c:1253-1258 | a graph made of two sets of edges has a cycle exactly if the first set has one or an edge of the second has a way back |
| `KconfCycle.FollowedReads` | kconf/symbol.c:1241-1273 | the exact difference between evaluator and check: besides what they share, the evaluator reads the weak reverse dependency and the check follows the conditions of the symbol's imply properties |
| `KconfCycle.ImplyCycleUnreported` | kconf/symbol.c:1241-1273 | two symbols that imply each other: what the check follows has no cycle, and no rank orders the reads |
| `KconfCycle.ImplyConditionReported` | kconf/symbol.c:1253-1258 | A implies B if C and C depends on A: what the check follows has a cycle, and a rank orders the reads |
| `KconfCycle.StackClosesCycle` | kconf/symbol.c:1312-1318 | meeting a symbol that is on the stack closes a cycle of the graph |
| `KconfCycle.TopologicalMeansAcyclic` | kconf/symbol.c:1312-1344 | a graph with a topological order of all symbols has no cycle |
| `MenuTree.Builder.constructor` | kconf/menu.c:41-45 | the root alone is a tree |
| `MenuTree.Builder.AddEntry` | kconf/menu.c:47-63 | adding an entry keeps the pointers a tree whose preorder is the order of addition, with the current menu as parent |
| `MenuTree.Builder.AddMenu` | kconf/menu.c:65-69 | opening a menu changes no pointer and makes the last entry the current menu |
| `MenuTree.Builder.EndMenu` | kconf/menu.c:71-75 | closing a menu changes no pointer, and entries go on behind it |
| `MenuTree.Menus.Absorb` | kconf/menu.c:452-488 | the maximal run of following siblings that pass the dependency tests is finalized and gets the symbol as parent; everything else stays |
| `MenuTree.Menus.MakeSubmenu` | kconf/menu.c:448-494 | automatic submenu creation keeps the sibling lists well formed, makes exactly that run the children, and touches no node before the symbol or behind its list |
| `MenuTree.Menus.Flatten` | kconf/menu.c:498-577 | exactly the children without a title lose their children to the parent, in place; all other nodes keep what is below them |
| `MenuTree.Menus.Lift` | kconf/menu.c:567-576 | one untitled child: its children follow it as siblings with the right parent |
| `MenuTree.Menus.Finalize` | kconf/menu.c:423-577 | restructuring terminates, keeps the sibling list well formed in the same preorder, changes nothing outside it, and leaves no untitled node below with children |
| `MenuTree.Menus.FinalizeRoot` | kconf/menu.c:423-577 | over the whole tree the preorder is unchanged, every child and sibling pointer is matched by the right parent pointer, and no untitled node keeps children |
| `MenuTree.Menus.Walk` | kconf/confdata.c:790-823 | the stackless walk terminates and visits every node except the root once, in preorder |
| `MenuTree.Menus.FinalizeAndWalk` | kconf/confdata.c:790-823 | after finalizing, the walk visits all nodes once in the preorder from before finalizing |
| `MenuTree.PreorderIsOrder` | kconf/confdata.c:790-823 | the preorder that list and next pointers define is the order of addition |
| `MenuTree.ParentsRight` | kconf/menu.c:484-494 | in a well-formed list every child points to its parent and siblings share theirs |
| `Asn1Scan.FindIndefiniteLength` | compat/lib-asn1_decoder.c:57-140 | the scanning loop with a nesting counter, which terminates and reads only inside the data, computes the recursive scan |
| `Asn1Scan.ScanIsGrammar` | compat/lib-asn1_decoder.c:57-140 | the scan succeeds at e exactly if the octets up to e are a sequence of items of the BER grammar (X.690 sections 8.1.2, 8.1.3) ended by a matching end-of-contents (8.1.5), so it succeeds exactly on inputs with such a prefix and returns its length |
| `Asn1Scan.ScanSound` | compat/lib-asn1_decoder.c:57-140 | a successful scan at any nesting depth has read a stack of item sequences |
| `Asn1Scan.ScanComplete` | compat/lib-asn1_decoder.c:57-140 | every stack of item sequences in the data is scanned to its end |
| `Asn1Scan.ScanThrough` | compat/lib-asn1_decoder.c:57-140 | a stack of item sequences is passed by the nesting counter whatever the depth around it |
| `Asn1Scan.ScanStaysInside` | compat/lib-asn1_decoder.c:57-140 | the scan ends inside the data and after its start |
| `Asn1Scan.SkipLongTag` | compat/lib-asn1_decoder.c:86-92 | the loop over long-form tag octets stops behind the octet that ends the tag, or reports overrun |
| `Asn1Scan.ReadOctets` | compat/lib-asn1_decoder.c:112-116 | the length octets are read as a big-endian number |
| `Asn1Machine.StepKeeps` | compat/lib-asn1_decoder.c:197-444 | every opcode keeps the invariant of the decoder |
| `Asn1Machine.PushKeeps` | compat/lib-asn1_decoder.c:288-303 | 16-bit and 8-bit storage of positions loses nothing, and the 0 that marks an indefinite length is never a saved definite end |
| `Asn1Machine.ContentsEvent` | compat/lib-asn1_decoder.c:380-444 | the slice given to an END action has the length announced by a definite header, or starts at the contents of an indefinite element and is followed by 00 00 |
| `Asn1Machine.EvalEndKeeps` | compat/lib-asn1_decoder.c:380-444 | closing an element restores the enclosing end and keeps the invariant |
| `Asn1Machine.NestedFacts` | compat/lib-asn1_decoder.c:288-303 | saved ends are nested outward and elements start inside one another |
| `Asn1Machine.Run` | compat/lib-asn1_decoder.c:167-518 | every reachable state of every program on every input satisfies the invariant, and so do the callbacks of a completed run |
| `Asn1Machine.RunIsSafe` | compat/lib-asn1_decoder.c:167-518 | in every reachable state the cursor and the end stay inside the data, both stacks inside their arrays, saved ends nested, and all callbacks so far were given what EventOk says: definite slices as announced by the header, indefinite leaves up to their matching end-of-contents, indefinite END slices up to some 00 00 |
| `Asn1Exact.StepExact` | compat/lib-asn1_decoder.c:197-444 | every opcode keeps the scanner in step with the machine in every open element, one level out for each tag octet 0 |
| `Asn1Exact.RunExact` | compat/lib-asn1_decoder.c:167-518 | in every run of any bytecode, the END slice of an indefinite element in which no JUMP went into a primitive element is its contents, ended by the matching end-of-contents, if and only if no element with tag octet 0 was matched in it |
| `Asn1Exact.SliceExact` | compat/lib-asn1_decoder.c:380-444 | if every reachable JUMP asks for a constructed element, that holds for every END slice of an indefinite element |
| `Asn1Exact.SliceIsContents` | compat/lib-asn1_decoder.c:380-444 | if moreover no reachable opcode accepts tag octet 0, every END slice on every input is exactly the contents of its element |
| `Asn1Exact.Closed` | compat/lib-asn1_decoder.c:401-418 | at 00 00 in an element the scanner ends here exactly if no tag octet 0 has put it further out |
| `Asn1Slips.ZeroTagSlips` | compat/lib-asn1_decoder.c:233-234 | bytecode and data for which MATCH_ANY takes the end-of-contents for an element and the END slice is wrong |
| `Asn1Slips.JumpSlips` | compat/lib-asn1_decoder.c:351-364 | bytecode and data for which a JUMP on a primitive tag makes the END slice wrong |
| `Asn1Machine.TagTestOnBits` | compat/lib-asn1_decoder.c:244-257 | the machine's tag match is the masked xor test: all bits agree, except for a CONS bit that the opcode has |
| `ScatterGather.FindPage` | compat/compat-3.9.c:82-99 | the page iterator's loop finds the entry a page falls into without losing an address |
| `ScatterGather.MappingIter.constructor` | compat/compat-3.9.c:136-144 | a started iterator has all addresses of the list before it |
| `ScatterGather.MappingIter.NextMap` | compat/compat-3.9.c:164-184 | from any state, mapped and partly consumed or not, the mapping is the next contiguous stretch of the list's addresses after those consumed, nothing is left when it fails, and pages run out |
| `ScatterGather.MappingIter.StopMap` | compat/compat-3.9.c:201-225 | stopping passes exactly the consumed bytes |
| `ScatterGather.MappingIter.Skip` | compat/backport-3.11.c:54-71 | from any state, skipping n bytes behind those consumed succeeds exactly if the list has them, and drops exactly these addresses |
| `ScatterGather.CopyBuffer` | compat/backport-3.11.c:86-123 | the result is max(0, min(buflen, total - skip)), and in either direction exactly the bytes skip to skip + n of the concatenated entries are transferred, everything else unchanged |
| `ScatterGather.WrittenDistinct` | compat/backport-3.11.c:86-123 | when the addresses are distinct every byte arrives at its own address and no other byte of memory changes |
| `ScatterGather.PagesAreAligned` | compat/compat-3.9.c:77-80 | the recursive page count is the rounded-up quotient of the code |
| `Arc4.Context.SetKey` | compat/lib-crypto-arc4.c:13-34 | key setup gives the textbook initial state |
| `Arc4.Context.Crypt` | compat/lib-crypto-arc4.c:37-71 | the software-pipelined loop gives the textbook ciphertext and leaves the textbook state |
| `Arc4.Context.Rounds` | compat/lib-crypto-arc4.c:49-67 | fetching the operands of the next round before emitting does not change the keystream |
| `Arc4.SchedulePermutes` | compat/lib-crypto-arc4.c:13-34 | key setup leaves a permutation of 0..255 |
| `Arc4.AfterPermutes` | compat/lib-crypto-arc4.c:37-71 | the state stays a permutation after any number of octets |
| `Arc4.ChunksConcatenate` | compat/lib-crypto-arc4.c:37-71 | encrypting in chunks equals encrypting the concatenation |
| `Arc4.CryptTwice` | compat/lib-crypto-arc4.c:37-71 | crypting twice from the same state returns the input |
| `Refcount.CounterStep` | compat/lib-refcount.c:65-140 | under any interleaving 0 and UINT_MAX are absorbing, and the counter changes only by one successful swap that adds or subtracts without wrapping |
| `Refcount.SwapMoves` | compat/lib-refcount.c:65-296 | no loop ever swaps in a wrapped value |
| `Refcount.FreedOnce` | compat/lib-refcount.c:181-203 | in any interleaving at most one decrement by at least one returns true |
| `Refcount.BalancedStep` | compat/lib-refcount.c:65-296 | a step of threads that drop only what they hold keeps counter and references in balance |
| `Refcount.CountsReferences` | compat/lib-refcount.c:65-296 | in such runs the counter is saturated or equals the number of references held |
| `Refcount.FreedUnheld` | compat/lib-refcount.c:181-262 | in such runs the decrement that returns true leaves no thread with a reference |
| `Refcount.LastDropUnderLock` | compat/lib-refcount.c:315-391 | if every drop uses dec_and_lock, the step to 0 is from 1, under the lock, and returns true with the lock held |

## Left out

- The rhlist variant, inserts without a key, replacement (`rhashtable_replace_fast`), table walkers (`rhashtable_walk_*`) and the freeing or reuse of removed objects after a grace period: not part of the protocol model.
- RhashTheorems.RemoveFindsLinked: is about objects that are not inserted and removed by two threads at the same time.
- Memory ordering in the hash table and the reference counts: every access is one atomic step of a sequentially consistent memory.
- Nested tables inside the concurrent protocol: the protocol uses flat tables, and the directory is proved separately to address the same slots.
- NestedBuckets.Directory.Alloc: of other threads only one that fills the same entry first is modelled.
- Hash values: a bucket index is an arbitrary function of table size, seed and key.
- In-place rewriting and freeing of expression nodes: `kconf/expr.c` is modelled on values, so aliasing between expressions and the release of nodes are not captured.
- expr_trans_bool and expr_trans_compare: two-valued rewrites that do not preserve m.
- KconfExpr.SupersetTest: is about the two expressions handed to the test; what expr_trans_compare did to them before is not part of it.
- KconfEval.Evaluator.CalcValue: computes bool and tristate symbols; an int, hex or string symbol only gets its valid bit and the value n, without visibility and default string.
- KconfEval.Evaluator.ClearAllValid: the MODULES symbol is calculated again, but whether m is allowed is fixed by the configuration and does not change with it.
- Choice symbols, strings, numbers, ranges, environment symbols and a changing MODULES value in the evaluator; choices in the cycle check.
- KconfCycle.CheckConfig: is about bool and tristate symbols; the ranges of int and hex symbols, whose conditions the check follows and whose bounds the evaluator reads, are not among the edges.
- KconfCycle.Checker.CheckAll: is about the reports made, not about the return value of sym_check_deps, which is cleared at the symbol that closes the cycle.
- KconfEval.Evaluator.SetThenCalc: does not cover choice values, whose setting also changes the choice and its other values.
- The properties, dependencies and warnings that menu_finalize also updates: only the tree pointers are modelled in `MenuTree`, and of the dependencies `KconfTransform.Propagate`.
- What conf_write writes for each node: only the order of visits is modelled.
- Termination of asn1_ber_decoder on arbitrary bytecode: `Asn1Machine.Run` covers any number of opcodes, not that the program ends.
- Asn1Machine.RunIsSafe: makes no claim about the data passed to ACT and MAYBE_ACT outside a match, nor about the length passed to the MATCH action of an indefinite element that is entered; END slices of indefinite elements are the subject of `Asn1Exact`.
- Asn1Machine.ContentsEvent: says of an indefinite element only that 00 00 follows the slice, because more is false in general; the exact condition is `Asn1Exact.SliceExact`.
- Asn1Exact.SliceExact: says nothing about an element in which a JUMP went into a primitive element with contents; the machine may or may not get back in step there.
- Asn1Machine.Step: octets that are no opcode are outside the model.
- ScatterGather.CopyBuffer: does not model the 32-bit widths of offsets and lengths, a negative skip, the mapping of high memory, or a page size other than 4096.
- ScatterGather.WrittenDistinct: asks for distinct addresses; a list that contains a page twice is covered by CopyBuffer alone, where the last write wins.
- Refcount.LastDropUnderLock: a thread does not call refcount_dec_and_lock while it holds that lock itself.
- Warnings, the mutex and irqsave variants of refcount_dec_and_lock (the same loops around another lock), user interface, file handling, generated parser code and the version shims: no further properties of their own.
- div64_u64_rem, CORDIC, the OID registry and device, HID, PCI, thermal and netlink glue: not modelled.
