# openchakra document model in Dafny

This project models the document model of the openchakra visual page builder and proves properties about it. It also models the builder's JSX code generator.

- **Editor state.** The state (`ComponentsState`) holds:
  - the pages;
  - each page's component tree (`componentsById`), which maps ids to `{id, type, parent, children}`;
  - each page's props (`propsById`);
  - the template registry (`customComponents`, `customComponentsProps`);
  - the selected page, the selected node and the hovered node.

  It is the class `Store.ComponentsState`. The reducers are methods that update it in place (`modifies st`).
- **Universes.** A node belongs to the registry when `customComponents` holds its id. That is `checkIsChildOfCustomComponent`, a membership test the model writes where it is used, in `TreeFor`, `PropsFor` and `UniverseOf`. Otherwise the node belongs to the selected page.
- **One prop store.** The source has two prop-store shapes:
  - the flat `IProp[]` of `components.ts`, scanned with `findIndex`;
  - the `{byId, byComponentId}` store of `moveComponent.ts` and `spanOperations.ts`.

  Both are modelled as one `PropTable`, a map from a component id to that component's props in insertion order. The flat list is its projection per component. `byComponentId` resolved through `byId` is the same table. Lookups by `(componentId, name)` go through `Store.FindProp` / `Store.Lookup`.
- **Generated ids.** `generateId` is a counter (`IdOf(n) = "id-" + digits of n`). Each reducer states exactly how many ids it draws and in what order.
- **Object iteration.** Iteration in `Object.values` / `Object.keys` order is an explicit `order` parameter that enumerates the keys once each.

Modules:

- `Wrappers`: `Option`.
- `Seqs`: sequence and string operations, each with its JavaScript reading: `splice`, `filter`, `substring`, `join`.
- `Store`: the data model, the state class and the initial state.
- `Recursive`: the helpers of `utils/recursive`, defined as the functions their call sites rely on. That file is not part of this model.
- `ComponentProps`: the prop-level specification functions of `updateProps`, `exposeProp`, `unexpose`, `deleteCustomProp` and `duplicateProps`, with lemmas.
- `ComponentTree`: the tree-level specification functions of delete, move, add, duplicate, save as template and export, with lemmas.
- `Components`: the reducers of `components.ts` as methods, including their loops.
- `CrossMove`: the newer four-branch `moveComponent` of `components/moveComponent.ts`.
- `Spans`: the rich-text span operations of `components/spanOperations.ts`.
- `Codegen`: `capitalize`, `iconPropsHandler` and `buildBlock`.

## Model

| member | source | states |
|---|---|---|
| Store.FindProp | src/core/models/components.ts:136-138 | `findIndex` by name: the index found holds that name, and no earlier prop does; `None` exactly when no prop has the name |
| Store.Lookup | src/core/models/components.ts:136-138 | the (componentId, name) lookup returns the first prop of that name owned by the component, or `None` when there is none |
| Store.ComponentsState.Initial | src/core/models/components.ts:92-101 | the initial state: pages `app` and `customPage`, each tree a lone `root` Box, empty props and registry, `root` selected |
| Store.InitialLinked | src/core/models/components.ts:33-50 | the initial trees satisfy the tree invariant `Linked` (keyed by id, children distinct, children point back, parents list their children) |
| Store.GenerateId | src/core/models/components.ts:141-148 | hands out `IdOf(counter)` and advances the counter by one, changing nothing else |
| Components.UpdateProps | src/core/models/components.ts:120-155 | the registry's props for a template node, else the selected page's, become `UpdateProp` of the old ones; the other store is untouched; one id is drawn exactly when the prop was missing |
| ComponentProps.UpdatePropEffect | src/core/models/components.ts:136-150 | an existing prop only takes the value (its id and aliases kept, the list length kept); a missing one is appended as one plain prop; no other component and no other name changes |
| ComponentProps.UpdatePropKeepsUnique | src/core/models/components.ts:136-150 | with at most one prop per name before, there is at most one after, and exactly one of the updated name |
| ComponentProps.UpdatePropIdempotent | src/core/models/components.ts:136-150 | a second identical update leaves the props as the first one left them |
| Components.ExposeProp | src/core/models/components.ts:156-266 | a template node: the stores become `ExposeInTemplate`'s, for `root` as `searchRootCustomComponent` returns it; a page node: the page props become `ExposeOnPage`'s, and one id is drawn exactly when the targeted prop was missing |
| Components.ExposeInTemplateSteps | src/core/models/components.ts:172-242 | the template branch, with its alias step and both instance loops, computes `ExposeInTemplate` |
| ComponentProps.AliasInRegistryEffect | src/core/models/components.ts:185-218 | after the alias step the targeted prop exists and is aliased as (root type, custom name); no other component's props change |
| ComponentProps.AliasInRegistryFoundNoop | src/core/models/components.ts:196-207 | aliasing a prop that already carries the wanted alias returns the same props and draws no id |
| ComponentProps.ExposeInTemplateAliases | src/core/models/components.ts:185-242 | after exposing in a template, the targeted prop is aliased as (root type, custom name), and the root has a prop of the custom name |
| ComponentProps.ExposeInTemplateIdempotent | src/core/models/components.ts:220-242 | a second identical `exposeProp` inside a template changes nothing: instance props are added only while the root lacks the custom name |
| ComponentProps.ExposeInTemplatePropagates | src/core/models/components.ts:220-242 | when the root lacks the custom name after the alias step, every page instance and every registry instance of the root's type ends up with a prop of that name, and every other component keeps its props; otherwise nothing beyond the alias step changes |
| ComponentProps.PushToInstances | src/core/models/components.ts:222-241 | the instance push loop never moves the id counter backwards |
| ComponentProps.PushToInstancesEffect | src/core/models/components.ts:222-241 | over distinct keys, every instance of the type gains exactly one plain prop (custom name, seeded value) at the end of its list; all others are unchanged |
| ComponentProps.PushToInstancesExtends | src/core/models/components.ts:222-241 | the push only appends: each old list is a prefix of the new one |
| ComponentProps.PushToInstancesProvides | src/core/models/components.ts:222-241 | every visited instance has a prop of the custom name afterwards |
| Components.PushLoop | src/core/models/components.ts:222-241 | the `forEach` loop computes `PushToInstances`, props and counter |
| ComponentProps.ExposeThenUnexposeRestores | src/core/models/components.ts:243-263 | on a page node whose targeted prop existed unaliased, `unexpose` after `exposeProp` restores the props |
| ComponentProps.ExposeThenUnexposeLeavesAdded | src/core/models/components.ts:252-262 | when `exposeProp` had to add the prop (empty value, alias set, null component type), `unexpose` leaves that prop behind unaliased |
| ComponentProps.ExposeThenUnexposeInTemplate | src/core/models/components.ts:172-242 | inside a template whose root's type is its own name, for an unaliased prop whose custom name differs from the prop's name and which no instance has yet, `unexpose` after `exposeProp` restores every component's page props and registry props (lines 890-936) |
| Components.Unexpose | src/core/models/components.ts:879-948 | a template node: the stores become `UnexposeInTemplate`'s; a page node: only the targeted prop's `derivedFromPropName` is cleared; no id is drawn |
| Components.UnexposeInTemplateSteps | src/core/models/components.ts:890-936 | the template branch, with its loops, computes `UnexposeInTemplate` |
| ComponentProps.UnexposeInTemplateEffect | src/core/models/components.ts:890-936 | if another registry prop still uses the alias, only the targeted prop's aliases are cleared; otherwise each page instance and each registry instance of the alias's type loses its first prop of the custom name, non-instances keep theirs, and no registry prop keeps the alias; the un-aliased targeted prop stays unless the alias name is its own name |
| ComponentProps.RemoveFirstNamed | src/core/models/components.ts:919-924 | `splice(findIndex(name), 1)`: one element shorter when the name is found, unchanged when not |
| ComponentProps.RemoveFirstNamedUnique | src/core/models/components.ts:919-924 | with at most one prop per name, the prop of that name is gone, every other prop survives, and names stay unique |
| ComponentProps.RemoveFromInstancesEffect | src/core/models/components.ts:916-935 | over distinct keys, each instance of the type loses its first prop of the name; no other component changes |
| Components.RemoveLoop | src/core/models/components.ts:916-935 | the `forEach` loop computes `RemoveFromInstances` |
| Components.DeleteCustomProp | src/core/models/components.ts:949-993 | the page props and registry props become `DeleteCustomPropSpec`'s for the selected node's type; nothing else changes |
| Components.DeleteCustomPropSteps | src/core/models/components.ts:961-991 | the three loops compute `DeleteCustomPropSpec` |
| ComponentProps.DeleteCustomPropEffect | src/core/models/components.ts:961-991 | afterwards no registry prop is aliased to (type, name); a page node or a registry node of that type with unique names has no prop of that name left; other page nodes keep their props, and other registry nodes only lose that alias |
| ComponentProps.ClearAliasesIn | src/core/models/components.ts:981-991 | props aliased as (type, name) lose both alias fields, keeping id, name and value; all others are unchanged; the length is kept |
| ComponentProps.ClearAliases | src/core/models/components.ts:981-991 | the un-aliasing is applied to every component's list, with the same keys |
| Components.ClearAliasesInLoop | src/core/models/components.ts:981-991 | the in-place `forEach` computes `ClearAliasesIn` |
| Components.ClearAliasesLoop | src/core/models/components.ts:981-991 | the same pass, component by component, computes `ClearAliases` |
| ComponentProps.DuplicateProps | src/core/models/components.ts:79-90 | `duplicateProps` returns one copy per prop |
| ComponentProps.DuplicatePropsCopies | src/core/models/components.ts:79-90 | the i-th copy is the i-th original with id `IdOf(counter + i)`, and every name is found at the same index |
| Components.DuplicatePropsLoop | src/core/models/components.ts:79-90 | the `forEach` computes `DuplicateProps` and draws one id per prop |
| Components.DeleteComponent | src/core/models/components.ts:270-315 | `root` and an immediate template child leave the state unchanged; otherwise the node's universe becomes `DeleteFrom`'s, the parent no longer lists the id, and `root` is selected |
| Recursive.DeleteComp | src/core/models/components.ts:293-297 | `deleteComp`, defined as: exactly the subtree leaves the tree; the subtree's props are dropped and the others kept |
| ComponentTree.DeleteFromEffect | src/core/models/components.ts:293-306 | the tree keeps exactly the nodes outside the subtree; the subtree's props are gone and the others kept |
| ComponentTree.DeleteFromAt | src/core/models/components.ts:298-301 | a surviving node is unchanged, except the parent, which loses the id from its children |
| ComponentTree.DeleteFromLinked | src/core/models/components.ts:293-306 | deleting a subtree from a linked tree leaves it linked |
| Components.MoveComponent | src/core/models/components.ts:316-459 | the old move: when `MovedStores` refuses, nothing changes; otherwise the stores become `MovedStores`' and `root` is selected |
| Components.MovedStores | src/core/models/components.ts:316-459 | a completed move keeps the selected page's stores present |
| Components.MovedStoresRefusals | src/core/models/components.ts:320-340 | the move is refused exactly when the node is moved onto itself or to its current parent, it is an immediate template child, or a page node enters a template of its own type; in that last case the source throws instead (see Findings) |
| Components.MovedAsWritten | src/core/models/components.ts:384-421 | the old move as written, where the page-to-own-template refusal comes after the draft's splice: a completed move keeps the selected page's stores present |
| Components.MovedAsWrittenThrows | src/core/models/components.ts:396-421 | as written, the move throws exactly when a page node enters a template of its own type and its old parent had children to splice (always, in a linked tree with a real parent); `MovedStores` refuses that case; in every other case both agree |
| ComponentTree.MoveWithinShape | src/core/models/components.ts:446-453 | an in-universe move changes three records only: the node takes the new parent, the old parent drops it (others in order), and the new parent lists it last |
| ComponentTree.MoveWithinLinked | src/core/models/components.ts:396-400 | an in-universe move of a node to a parent other than itself and its current parent keeps the tree linked; `Linked` has no reachability, so this includes a move under a descendant |
| ComponentTree.MoveWithinReturns | src/core/models/components.ts:446-453 | moving back to the former parent restores the tree, except that the node is now listed last |
| ComponentTree.MoveAcrossKeys | src/core/models/components.ts:357-372 | crossing universes, the source keeps exactly the nodes outside the subtree, and the destination gains exactly the subtree |
| ComponentTree.MoveAcrossTo | src/core/models/components.ts:357-372 | in the destination the node points at the new parent, which lists it last; the rest of the subtree is copied and the destination's own records kept |
| ComponentTree.MoveAcrossFrom | src/core/models/components.ts:345-352 | in the source, only the old parent changes, losing the id |
| ComponentTree.MoveAcrossProps | src/core/models/components.ts:357-372 | each moved component's props follow it to the destination; every other component's props stay |
| ComponentTree.MoveAcrossIsCut | src/core/models/components.ts:344-350 | the source universe after the move is the tree with the subtree cut out and the old parent no longer listing the node |
| ComponentTree.MoveAcrossIsGraft | src/core/models/components.ts:365-380 | the destination after the move is the subtree grafted under the new parent |
| ComponentTree.CutLinked | src/core/models/components.ts:344-350 | cutting a subtree whose parent lies outside it keeps the rest linked, the old parent no longer lists the node, and the cut-out part is a linked subtree hanging from the node |
| ComponentTree.GraftedLinked | src/core/models/components/moveComponent.ts:160-169 | grafting a linked detached subtree under a node of a disjoint linked tree gives a linked tree |
| ComponentTree.GraftedSubtree | src/core/models/components/moveComponent.ts:160-169 | after grafting, the moved root points at the new parent and the moved ids are exactly its subtree |
| ComponentTree.MoveAcrossLinked | src/core/models/components.ts:357-383 | moving a subtree across universes keeps both trees linked, and the old parent no longer lists the node |
| Recursive.MoveCompBetween | src/core/models/components.ts:357-372 | the five-argument `moveComponent`, defined as: the subtree and its props leave the source and are appended to the destination |
| Components.MoveSelectedComponentChildren | src/core/models/components.ts:460-481 | the selected node's children become `Reorder(children, fromIndex, toIndex)` in its own universe; nothing else changes |
| ComponentTree.ReorderLinked | src/core/models/components.ts:460-481 | reordering one node's children keeps a linked tree linked |
| Seqs.IndexOf | src/core/models/components/moveComponent.ts:45-48 | JavaScript `indexOf`: -1 exactly when the element is absent, otherwise the index of its first occurrence |
| Seqs.SpliceOut | src/core/models/components/moveComponent.ts:45-48 | `splice(indexOf(x), 1)`: removes the first `x` when present; when absent, start -1 counts from the end, so the last element is dropped |
| Seqs.PermutationNoDup | src/core/models/components.ts:475-479 | a permutation of a duplicate-free list is duplicate-free and has the same elements |
| Seqs.SpliceStart | src/core/models/components.ts:475-479 | JavaScript `splice`'s start: a negative start counts from the end, and the result is clamped into the list |
| Seqs.ReorderPermutes | src/core/models/components.ts:475-479 | the reordered children are a permutation: same length, same multiset |
| Seqs.ReorderMoves | src/core/models/components.ts:475-479 | the element taken from `fromIndex` sits at the insertion point, and removing it from both lists leaves them equal |
| Components.AddComponent | src/core/models/components.ts:482-547 | a fresh leaf `IdOf(counter)` of the type is added under the parent in the parent's universe, owning `DefaultProps`, and is selected; the counter advances by 1 plus the number of defaults |
| ComponentTree.DefaultProps | src/core/models/components.ts:503-517 | one plain prop per default entry, in key order, each with the entry's name and value and the next id |
| Components.DefaultPropsLoop | src/core/models/components.ts:505-517 | the `Object.keys(...).forEach` loop computes `DefaultProps` |
| Components.AddedStores | src/core/models/components.ts:518-544 | adding a leaf keeps the selected page's stores present |
| ComponentTree.AddNodeEffect | src/core/models/components.ts:518-544 | the new leaf has the given parent and no children, is listed last by its parent, and owns exactly the new props; nothing else changes |
| ComponentTree.AddNodeLinked | src/core/models/components.ts:518-544 | adding a fresh leaf keeps the tree linked |
| ComponentTree.AddThenDelete | src/core/models/components.ts:518-544 | deleting the node just added restores the tree |
| ComponentTree.AddThenDeleteProps | src/core/models/components.ts:518-544 | deleting the node just added restores the props |
| Components.AddCustomComponent | src/core/models/components.ts:548-613 | inside its own template (`SelfInstance`), nothing changes but the counter; otherwise an instance is added with copies of the template's props under fresh ids and selected |
| Components.Duplicate | src/core/models/components.ts:696-753 | an immediate template child leaves the stores unchanged; otherwise the clone joins the universe, listed last under the original's parent |
| ComponentTree.DuplicateThenDelete | src/core/models/components.ts:727-751 | after duplicating, the clone meets `DeleteComponent`'s precondition (its parent is in the tree and outside the clone, and the clone's ids are its subtree), and deleting that subtree restores the tree |
| ComponentTree.DuplicateThenDeleteProps | src/core/models/components.ts:727-751 | deleting the clone's subtree right after duplicating restores the props |
| ComponentTree.DuplicateIsGraft | src/core/models/components.ts:727-751 | duplicating is grafting the clone under the original's parent |
| ComponentTree.DuplicateLinked | src/core/models/components.ts:727-751 | duplicating into a linked tree keeps it linked |
| ComponentTree.DuplicateCopies | src/core/models/components.ts:727-751 | every node of the original's subtree has its copy in the tree, of the same type, owning a copy of its props under new ids, and the original keeps its props |
| Components.SaveComponent | src/core/models/components.ts:754-831 | the stores become `SavedStores`'; the counter advances by 1 plus the number of root props copied |
| Components.SavedStores | src/core/models/components.ts:754-831 | saving keeps the selected page's stores present |
| ComponentTree.SaveSpecPageTree | src/core/models/components.ts:781-795 | the page tree after saving is the tree with the subtree deleted and a fresh leaf `newId` of type `name` added under the same parent |
| ComponentTree.SaveSpecPage | src/core/models/components.ts:781-795 | the page tree stays linked; the parent no longer lists the saved node and ends with `newId` |
| ComponentTree.SaveSpecPageProps | src/core/models/components.ts:822-824 | the instance owns a copy of `rootParentProps` under the following ids, and the subtree owns nothing in the page |
| ComponentTree.SaveSpecRegistry | src/core/models/components.ts:797-808 | the registry holds `name` with parent `""` and children `[componentId]`; the saved node's parent is `name`; the root's registry props end with `rootParentProps` |
| ComponentTree.SaveSpecRegistryLinked | src/core/models/components.ts:797-808 | saving a linked page subtree under a fresh `name` keeps a linked registry linked, and the registry's nodes become the old ones, the subtree and `name` |
| ComponentTree.SaveSpecOrphans | src/core/models/components.ts:797-805 | saving under a `name` that already names a template replaces its root record: an old child of that root keeps `name` as its parent, but the new root does not list it, so the registry is no longer linked |
| Components.ExportSelectedComponentToCustomPage | src/core/models/components.ts:853-878 | only the custom page's tree and props change, becoming `ExportSpec`'s |
| ComponentTree.ExportSpecEffect | src/core/models/components.ts:867-876 | the clone's root is last under the custom page's `root` and points at it; every clone node and every other node is kept; the clone's props are appended |
| ComponentTree.ExportLinked | src/core/models/components.ts:867-876 | exporting a linked clone into the custom page keeps that page's tree linked, with the clone listed under `root` |
| Components.DeleteCustomComponent | src/core/models/components.ts:994-1007 | the registry loses the template's subtree and those nodes' props; pages are untouched |
| ComponentTree.DeleteTemplateLinked | src/core/models/components.ts:994-1007 | deleting a whole template from a linked registry keeps it linked, and exactly the template's nodes are gone |
| Components.Commit | src/core/models/components.ts:92-101 | writes the four stores and the counter, keeping page, selection and hover |
| Components.Reset | src/core/models/components.ts:103-108 | every page tree returns to the initial `root` Box and `root` is selected; props and the registry are kept |
| Components.Select | src/core/models/components.ts:670-678 | only `selectedId` changes, to the given id |
| Components.Unselect | src/core/models/components.ts:679-684 | only `selectedId` changes, to `root` |
| Components.Hover | src/core/models/components.ts:832-840 | only `hoveredId` changes, to the given id |
| Components.Unhover | src/core/models/components.ts:841-846 | only `hoveredId` changes, to none |
| Components.SwitchPage | src/core/models/components.ts:847-852 | only `selectedPage` changes; the state stays valid exactly when that page and its stores exist |
| CrossMove.MoveComponent | src/core/models/components/moveComponent.ts:30-336 | the stores become `CrossMoved`'s and the moved node is selected; an instance moved into its own template changes nothing (lines 223-228) |
| CrossMove.CrossMovedSteps | src/core/models/components/moveComponent.ts:41-334 | the four branches with their loops compute `CrossMoved` |
| CrossMove.CrossMovedPlacesNode | src/core/models/components/moveComponent.ts:41-334 | whichever branch runs, no node is lost or created across the page and the registry, and the node is the last child of `newParentId`, in the registry exactly when `newParentId` is a registry node |
| CrossMove.WithinTemplatePlaces | src/core/models/components/moveComponent.ts:42-65 | template to template: the page is untouched, the registry keeps its nodes, and the node is placed under its new parent |
| CrossMove.ReparentedThenPushed | src/core/models/components/moveComponent.ts:42-65 | the registry's order (new parent, splice, push) gives the same tree as the page's when the node is not its own old parent |
| CrossMove.TemplateToPagePlaces | src/core/models/components/moveComponent.ts:160-169 | template to page: the moved subtree leaves the registry for the page, placed under `newParentId` |
| CrossMove.PageToTemplatePlaces | src/core/models/components/moveComponent.ts:238-255 | page to template: the moved subtree leaves the page for the registry, placed under `newParentId` |
| CrossMove.WithinPagePlaces | src/core/models/components/moveComponent.ts:319-332 | page to page: the registry is untouched and the page keeps its nodes, with the node placed under `newParentId` |
| CrossMove.RelinkIsMoveWithin | src/core/models/components/moveComponent.ts:319-332 | when `oldParentId` is the node's parent and lists it, the page-to-page move is the old reducer's in-universe move |
| CrossMove.RelinkStaleDropsLast | src/core/models/components/moveComponent.ts:321-326 | when `oldParentId` does not list the node, the page-to-page move drops that parent's last child, as `splice(-1, 1)` does |
| CrossMove.LeftRegistryIsCutAndGraft | src/core/models/components/moveComponent.ts:160-169 | template to page: the registry is cut at the node and the page receives the subtree grafted under `newParentId` |
| CrossMove.EnteredRegistryIsCutAndGraft | src/core/models/components/moveComponent.ts:238-255 | page to template: the page is cut at the node and the registry receives the subtree grafted under `newParentId` |
| CrossMove.WithinTemplateLinked | src/core/models/components/moveComponent.ts:42-65 | template to template, given that the helpers keep the trees: the page is untouched and the registry stays linked |
| CrossMove.TemplateToPageLinked | src/core/models/components/moveComponent.ts:160-169 | template to page, given that the helpers keep the trees: both the page and the registry stay linked |
| CrossMove.PageToTemplateLinked | src/core/models/components/moveComponent.ts:238-255 | page to template, given that the helpers keep the trees: both the page and the registry stay linked |
| CrossMove.CrossMovedLinked | src/core/models/components/moveComponent.ts:41-334 | whichever branch runs, given that the helpers keep the trees, a completed move leaves the page and the registry linked |
| ComponentTree.GraftedEffect | src/core/models/components/moveComponent.ts:160-169 | after grafting, the moved root points at `newParentId`, which lists it last; every other record is the moved one or the destination's |
| Recursive.MoveComp | src/core/models/components/moveComponent.ts:49-58 | `moveComp`, defined as: the subtree and its props are split out of the source |
| Recursive.MergeProps | src/core/models/components/moveComponent.ts:111-114 | `mergeProps`, defined as: the source's entries are copied over the target's, and nothing is removed |
| CrossMove.NullRootAliasesEffect | src/core/models/components/moveComponent.ts:200-206 | after the clean-up no prop of the moved root carries both alias fields; nothing else changes |
| CrossMove.RetargetAllEffect | src/core/models/components/moveComponent.ts:259-264 | page to template: every moved aliased prop points at the destination root; names, values and unaliased props stay |
| CrossMove.RetargetKeysEffect | src/core/models/components/moveComponent.ts:259-264 | over distinct keys, each owner is retargeted once and the others are left alone |
| CrossMove.RetargetAllLoop | src/core/models/components/moveComponent.ts:259-264 | the nested key/prop loop computes `RetargetAll` |
| CrossMove.MapPropsLoop | src/core/models/components/moveComponent.ts:201-206 | the `forEach` rewriting each prop computes `MapProps` |
| CrossMove.StepsInKeepRootUnique | src/core/models/components/moveComponent.ts:271-315 | entering the registry never gives the root a second prop of an alias's name: instances are updated only while the root has none |
| CrossMove.StepsWithinKeepRootUnique | src/core/models/components/moveComponent.ts:74-156 | moving inside the registry never gives the root a second prop of a custom name either |
| CrossMove.StepsKeepPages | src/core/models/components/moveComponent.ts:96-117 | every alias step keeps every page's stores, given that the helpers do |
| CrossMove.FoldLoop | src/core/models/components/moveComponent.ts:74-156 | the `forEach` over the moved aliases computes the fold of the step |
| CrossMove.WithinTemplateSteps | src/core/models/components/moveComponent.ts:41-157 | the template-to-template branch computes `WithinTemplate` |
| CrossMove.TemplateToPageSteps | src/core/models/components/moveComponent.ts:159-209 | the template-to-page branch computes `TemplateToPage` |
| CrossMove.PageToTemplateSteps | src/core/models/components/moveComponent.ts:217-316 | the page-to-template branch computes `PageToTemplate` |
| Spans.Ordered | src/core/models/components/spanOperations.ts:38-41 | the swapped pair is ordered, holds the same two numbers, and is unchanged when already ordered (also lines 121-124) |
| Seqs.Substring | src/core/models/components/spanOperations.ts:62-64 | JavaScript `substring`: for ends in range it is the slice between them |
| Spans.SpanInRunTree | src/core/models/components/spanOperations.ts:42-50 | the single-run add creates a fresh `Box` leaf whose parent is the selected node, listed last among its children; no other node changes |
| Spans.SpanInRunLinked | src/core/models/components/spanOperations.ts:42-50 | adding the span leaf under the selected node keeps the tree linked |
| Spans.SpanInRunProps | src/core/models/components/spanOperations.ts:52-86 | the span node owns exactly `as = "span"` and `children` = the run's `substring(start, end)`; the run is replaced in place by the split pieces, the runs around it kept in order; no other prop changes |
| Spans.SpanInRunKeepsText | src/core/models/components/spanOperations.ts:62-75 | under the `splitArray` assumption, cutting a text run keeps the text the node reads as, now with the span standing for the cut text |
| Spans.AddSpanComponent | src/core/models/components/spanOperations.ts:17-98 | the stores become `SpanAdded`'s; 3 ids are drawn in the single-run branch and 1 otherwise |
| Spans.PutUniverseTouchesOne | src/core/models/components/spanOperations.ts:111-113 | the write-back goes to the universe the node was read from, and the other universe is left alone (also lines 147-148, 159-161, 192-193) |
| Spans.PutUniverseWritten | src/core/models/components/spanOperations.ts:147-148 | reading back where the write went gives what was written |
| Spans.SpanRemovedJoined | src/core/models/components/spanOperations.ts:138-145 | after `removeSpanComponent`, under the joining assumption, the text prop keeps its id and has no two neighbouring text runs |
| Spans.RemoveSpanComponent | src/core/models/components/spanOperations.ts:100-149 | the stores become `SpanRemoved`'s, and no id is drawn |
| Spans.Cleared | src/core/models/components/spanOperations.ts:172-187 | the loop deletes exactly the nodes the runs name, each with its props; text runs delete nothing |
| Spans.ClearLoop | src/core/models/components/spanOperations.ts:172-187 | the `forEach` computes `Cleared`: the gathered text and the universe without the span nodes |
| Spans.ClearedReadsText | src/core/models/components/spanOperations.ts:172-187 | when each span id occurs once among the runs (`SpansOnce`; text runs may repeat), the gathered string is the in-order text, each id run replaced by its node's `children` text |
| Spans.RepeatedTextSpansOnce | src/core/models/components/spanOperations.ts:172-187 | `SpansOnce` admits repeated text runs such as `["a", span, "a"]`, which are not all distinct |
| Spans.FormattingClearedEffect | src/core/models/components/spanOperations.ts:168-190 | for the corrected `clearFormatting` (see Findings): the text prop becomes one run: the old string as it was, or, when each span id occurs once among the runs (`SpansOnce`), the text the runs read as; the named nodes are gone, the selected node no longer lists them, and every other node record and every other component's props are kept |
| Spans.FormattingClearedAsWritten | src/core/models/components/spanOperations.ts:151-194 | `clearFormatting` as written, deleting the span nodes but not unlisting them: the selected page's stores stay present |
| Spans.FormattingClearedAsWrittenDangles | src/core/models/components/spanOperations.ts:172-183 | as written, a span node the selected node lists is deleted but stays in its children, so the tree's children no longer point back |
| Spans.UnlistedLinked | src/core/models/components/spanOperations.ts:172-183 | deleting leaf children of a node and dropping them from its children keeps a linked tree linked |
| Spans.FormattingClearedLinked | src/core/models/components/spanOperations.ts:151-194 | the corrected `clearFormatting` keeps a linked tree linked when the span nodes are leaves of the selected node |
| Spans.ClearFormatting | src/core/models/components/spanOperations.ts:151-194 | the stores become those of the corrected `FormattingCleared` (see Findings), which also unlists the deleted span ids; no id is drawn |
| Codegen.Capitalize | src/utils/codeGeneration/buildBlock.ts:3-5 | the length is kept and `""` stays `""`; the first character is no longer lower-case and is unchanged unless it was; the rest is unchanged |
| Codegen.CapitalizeIdempotent | src/utils/codeGeneration/buildBlock.ts:3-5 | capitalizing twice is capitalizing once, and a string not starting lower-case is its own capitalization |
| Codegen.IconProps | src/utils/codeGeneration/buildBlock.ts:13-23 | `Icon`/`as` gives `={v}`; `icon`, `leftIcon` or `rightIcon` gives `={<v />}`; anything else returns `oldValue` |
| Codegen.IconPropsKeepsValueForm | src/utils/codeGeneration/buildBlock.ts:13-23 | given old value in attribute form, the result is in attribute form too |
| Codegen.Quoted | src/utils/codeGeneration/buildBlock.ts:46-48 | the default value is in attribute form, `={...}` or `='...'` |
| Codegen.BlockAppend | src/utils/codeGeneration/buildBlock.ts:33-37 | the output for a list of children is the concatenation of their outputs in order (line 130) |
| Codegen.BlockOne | src/utils/codeGeneration/buildBlock.ts:33-37 | the output for one child is its element |
| Codegen.Known | src/utils/codeGeneration/buildBlock.ts:34-35 | the children kept are exactly those with a component record |
| Codegen.BlockSkipsUnknown | src/utils/codeGeneration/buildBlock.ts:33-37 | unknown child ids contribute no text |
| Codegen.EmittedProps | src/utils/codeGeneration/buildBlock.ts:45-50 | keeps exactly the props that are emitted |
| Codegen.AttrsOfEmitted | src/utils/codeGeneration/buildBlock.ts:45-50 | props with a falsy value and no alias, and `children`, contribute nothing to the attribute text |
| Codegen.AttrIsAttribute | src/utils/codeGeneration/buildBlock.ts:41-82 | an attribute is empty exactly when the prop is not emitted; otherwise it is the name, an empty or attribute-form value, and a space |
| Codegen.AttrRules | src/utils/codeGeneration/buildBlock.ts:51-79 | an alias gives `name={alias}` whatever the value; otherwise a boolean-ish value gives a bare name, overriding a live component value, which gives a `<Box>` of that component's children, overriding `iconPropsHandler` |
| Codegen.RunsTextPlain | src/utils/codeGeneration/buildBlock.ts:95-104 | runs naming no live component read as their concatenation |
| Codegen.ContentPrecedence | src/utils/codeGeneration/buildBlock.ts:92-126 | the content rules apply in order: scalar `children` text; array `children` with id runs expanded; structural children; `{alias}`; otherwise self-closing |
| Codegen.ElementIsTag | src/utils/codeGeneration/buildBlock.ts:106-126 | a live child is one tag: it opens with `<` and its capitalized type, and it either closes with the same name or closes itself |
| Codegen.BuildBlock | src/utils/codeGeneration/buildBlock.ts:26-131 | the `forEach` over the children computes `Block` |
| Codegen.BuildElement | src/utils/codeGeneration/buildBlock.ts:34-126 | the body for one child computes `Element` |
| Codegen.BuildAttrs | src/utils/codeGeneration/buildBlock.ts:41-82 | the props loop computes `Attrs` |
| Codegen.BuildAttr | src/utils/codeGeneration/buildBlock.ts:42-81 | one prop's assignments to `value`, in the source's order, compute `Attr` |
| Codegen.BuildRuns | src/utils/codeGeneration/buildBlock.ts:96-104 | the loop over the runs computes `RunsText` |

## Left out

- `addMetaComponent` and `selectParent` are reducers outside the modelled core.
- `loadDemo` and `deleteProps` are not modelled, because they leave the state as it is.
- `resetProps` is not modelled, because its `filter` result is discarded, so it changes nothing.
- `generateId`, `generateComponentId` and `generatePropId` are random in the source. Here they are a counter, and freshness of a generated component id is a precondition.
- `DEFAULT_PROPS` is a parameter of `AddComponent`: the default entries of the type, in key order.
- Iteration order of `Object.keys` / `Object.values` is a parameter that enumerates each key once.
- The helpers of `utils/recursive`, `utils/reducerUtilities` and `utils/selectionUtility` are not part of this model:
  - `deleteComp`, `moveComp`, the five-argument `moveComponent`, `mergeProps`: defined in the `Recursive` module as the functions their call sites rely on;
  - the others are parameters whose contracts are stated as assumptions:
  - `searchRootCustomComponent`: `Store.IsRootOf`;
  - the subtree walked by the recursive helpers: `Store.SubtreeOf`;
  - `duplicateComponent`: its results are parameters, with `Recursive.DuplicateContract` stating their shape;
  - `fetchAndUpdateExposedProps`: its results are parameters;
  - `deleteCustomPropInRootComponent` and `updateInAllInstances` with `addCustomPropsInAllComponentInstances`: `CrossMove.Helpers`, with `KeepsStores`, `KeepsTrees` and `AddsOnlyTheAlias`;
  - `splitArray`: `Spans.SplitsAround`;
  - `joinAdjacentTextNodes`: `Spans.JoinsText`;
  - `addSpanForSelection` and `removeSpanForSelection`: function parameters with no assumption.
- Components.MovedStores: when a page node enters a template of its own type, the source splices the old parent's children in the draft and then returns `state` (components.ts lines 396-421), so the immer producer throws. The model refuses the move and changes nothing, the evidently intended behaviour; `Components.MovedAsWritten` is the as-written version (see Findings).
- Components.MovedStoresRefusals: in the page-to-own-template case the refusal it states is the corrected no-op, not the source's exception.
- Components.MoveComponent: the page-to-own-template case leaves the state unchanged here, where the source throws.
- Components.MoveSelectedComponentChildren: when `fromIndex` clamps to the end of the list or past it (always, for an empty list), `splice` removes nothing and the source reinserts `undefined` (components.ts lines 475-479). A list of ids cannot hold `undefined`, so that case is excluded by the precondition and not modelled. Any `fromIndex` that clamps into the list, including one below `-length`, is covered.
- Components.MoveComponent: the node must be in one of the two universes, its old parent must have a record, and the new parent must be in the universe it is pushed into. The source throws for a template root, whose parent `""` has no record (`customComponents[oldParentId].parent` at components.ts line 339), for the page's `root` (line 396), for an id in neither universe (line 386), and for a new parent in neither universe (lines 378 and 451). Those crashes are not modelled.
- CrossMove.MoveComponent: `oldParentId` must have a record in the node's universe, and the new parent must be in one of the two universes. The source throws for a missing `oldParentId`, including `""` for a root (moveComponent.ts lines 45, 231 and 321), and for a new parent in neither universe (line 330). Those crashes are not modelled.
- Components.AddComponent: the parent must be in its universe. The source throws for a missing parent when it pushes the new id (components.ts lines 525 and 539); that crash is not modelled.
- Components.AddCustomComponent: the parent must be in its universe. The source throws for a missing parent when it pushes the new id (components.ts lines 592 and 604); that crash is not modelled.
- Components.DeleteComponent: the node and its parent must be in the node's universe. The source throws for a template root, whose parent `""` has no record (`components[parentId].parent` at components.ts line 289), and for an id missing from its universe (line 286). Those crashes are not modelled.
- Components.Duplicate: the selected node's parent must be in its universe. The source throws for `root`, the default selection (components.ts line 100), at lines 748-750, where the parent `""` has no record. It also throws for a template root, at line 714. Those crashes are not modelled.
- Components.SaveComponent: the selected node must be a page node, its parent must be present, and `sub` must be its subtree. The source throws for `root`, the default selection (components.ts line 100), at lines 792-795, where the parent `""` has no record, and for a registry node at line 762. Those crashes are not modelled.
- ComponentTree.SaveSpecRegistryLinked: it requires a `name` that no registry node has. With an existing template name, the source overwrites that template's root (components.ts lines 797-805) and orphans the old root's other children (`ComponentTree.SaveSpecOrphans`). Saving does not check for this.
- ComponentTree.MoveWithin: leaving the old parent is `RemoveFirst`. The source's `splice(indexOf(id), 1)` (components.ts lines 344-346 and 396-400) agrees whenever the old parent lists the node (`Seqs.SpliceOut`), which it does in every linked tree. For a parent that does not list it, the source drops that parent's last child; this is not modelled for the old move. `ComponentTree.MoveAcross` and `ComponentTree.CutRest` are in the same position.
- Components.Unexpose: the targeted prop must exist. The source indexes with a `findIndex` result of -1 when it does not and throws (components.ts lines 891-905 and 938-945); that crash is not modelled.
- Components.DeleteCustomProp: the selected node must be on the selected page. For a registry node, `componentsById[...][componentId].type` throws (components.ts lines 957-958); that crash is not modelled.
- CrossMove.KeepsTrees: it assumes that `deleteCustomPropInRootComponent` and the instance-update helpers leave both trees alone. The source writes back the trees these helpers return (moveComponent.ts lines 116-117 and 196-197), and its comment at lines 268-269 says the instance update may also add a Box. A helper that adds or changes nodes is not captured.
- CrossMove.CrossMovedPlacesNode: "no node is lost or created" rests on `KeepsTrees`, so it does not cover nodes a helper adds.
- CrossMove.WithinTemplatePlaces: "the registry keeps its nodes" rests on `KeepsTrees`.
- CrossMove.TemplateToPagePlaces: the placement over both trees rests on `KeepsTrees`.
- CrossMove.PageToTemplatePlaces: the placement over both trees rests on `KeepsTrees`.
- CrossMove.CrossMovedLinked: rests on `KeepsTrees`, like `CrossMove.WithinTemplateLinked`, `CrossMove.TemplateToPageLinked` and `CrossMove.PageToTemplateLinked`. It shows that the tree edits the move makes itself keep both trees linked. It also excludes `newParentId == oldParentId`, a move to the current parent, and `oldParentId == ""`, a move of a root.
- Recursive.DuplicateContract: the clone's ids are fresh for the props too (`cloned.Keys !! props.Keys`), as a generated id would be.
- ComponentTree.MoveWithinLinked: `Linked` has no reachability. The lemma also covers moving a node under its own descendant, which the old move (components.ts lines 320-340 and 385-389) does not refuse and which detaches the node's subtree from `root` as a cycle. No acyclicity property is stated.
- ComponentProps.ExposeThenUnexposeRestores: the round trip is proved only when the targeted prop existed unaliased. When `exposeProp` had to add it, `unexpose` leaves an empty, unaliased prop behind (`ComponentProps.ExposeThenUnexposeLeavesAdded`), which code generation does not emit (`Codegen.AttrsOfEmitted`).
- `loadRequired` is read as the selected node's universe: the registry when it holds the node, else the selected page.
- ComponentProps.RemoveFirstNamed: treats a name that is not found as no change. The source's `splice(findIndex(...), 1)` (components.ts lines 924, 934, 968 and 977) would then remove the last element of the flat list. This is not replicated.
- Spans.AddSpanComponent: `_.flatten` is modelled by splicing the `splitArray` pieces into the run sequence. A run sequence is flat, so flattening anything else is the identity.
- Spans.AddSpanComponent: the `filter` dropping empty runs (spanOperations.ts line 97) throws its result away, so it is not modelled, and no "no empty runs" property is stated.
- Spans.AddSpanComponent: the multi-run branch advances the counter by exactly 1. `addSpanForSelection` is not given `newId` (spanOperations.ts lines 90-95), so any node it creates carries ids of its own, which the counter does not account for and whose freshness the model does not state.
- Spans.AddSpanComponent: the single-run branch requires the `children` value to be a run sequence. A plain string value there would index characters; this is not modelled.
- Spans.ClearFormatting: a boolean `children` value is excluded by its precondition. The source would store `[value]` (spanOperations.ts line 190), a one-element array holding the boolean itself, which a run list of strings cannot represent.
- Spans.ClearFormatting: it computes the corrected `FormattingCleared`, which also drops the deleted span ids from the selected node's `children`. The source deletes the span nodes (spanOperations.ts line 181) but leaves their ids listed; `Spans.FormattingClearedAsWritten` is that version (see Findings).
- Spans.FormattingClearedEffect: it states the corrected behaviour, in which the selected node no longer lists the deleted span ids; as written the source keeps listing them.
- Spans.ClearFormatting: a run that names the selected node itself is excluded by its precondition. The source would delete the node it is editing.
- A component without a `byComponentId` / prop-list entry reads as having no props (`Store.PropsOf`).
- Codegen.BuildBlock: termination is by a `fuel` bound on the recursion depth. With fuel exhausted the output is empty, so outputs of trees deeper than the fuel are not modelled.
- Codegen.Quoted: JavaScript's `isNaN` coercion is the abstract parameter `looksNumeric`.
- Codegen.BuildBlock: whitespace and line breaks inside the multi-line template literals are normalised to the single-line form.
- `console.error` on an unknown child is omitted. The child contributes no text.
- Codegen.Capitalize: `toUpperCase` is modelled for ASCII letters only.
- `buildBlock` leaves `components` and `props` untouched. Here this holds by construction: the generator works on values, and no method in `Codegen` modifies anything.
- Rendering, the React and UI files, the codesandbox export, and undo history (`ComponentsStateWithUndo`) are I/O or external collaborators.

## Findings

| source | as written | input that shows it | evidently intended | confidence | as-written member | corrected member |
|---|---|---|---|---|---|---|
| src/core/models/components.ts:396-421 | the old move splices the old parent's children in the draft, then returns `state` when a page node enters a template of its own type, so the immer producer throws | a page node of type `T` with a real parent, moved under a node of the template `T` | refuse the move and leave the state unchanged, like the other refusals | medium, not executed | Components.MovedAsWrittenThrows | Components.MovedStores |
| src/core/models/components/spanOperations.ts:172-183 | `clearFormatting` deletes each span node (line 181) but leaves its id in the selected node's `children`, where line 50 pushed it | a text prop whose runs name a span node listed under the selected node | also drop the deleted ids from the selected node's `children`, keeping the tree linked | high, not executed | Spans.FormattingClearedAsWrittenDangles | Spans.FormattingClearedLinked |
