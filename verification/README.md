# Kobold, modelled in Dafny

Kobold is a Rust library for building web interfaces out of *views*. Building a
view gives a *product* that owns a DOM node. Updating the product with the next
view changes only what differs. Events reach the product that registered them
through a thread-local runtime. A command-line tool (`kobold build`, `kobold
init`) packages the result and shrinks the `wbg` imports that `wasm-bindgen`
leaves in the JavaScript glue and in the WebAssembly import section.

This project models the core of that system and proves properties of it:

- the three list engines: the bounded vector (`list/bounded.rs`), the linked
  list of products (`list/unbounded.rs`, `list/unbounded/list.rs`) and the
  older `RenderedList` (`kobold/src/list.rs`). Each is a class over the stored
  products. Each is proved to apply the new views to the products in order,
  keeping their nodes, and to build the missing ones. Each is also proved to
  leave mounted exactly the nodes the new list shows.
- diffing (`diff.rs`, `diff/ver.rs`): memos, `Ref` compared by address,
  `Eager`/`Static`, `fence`, and `Ver` with its wrapping version counter.
- branching (`branching.rs`): a product that replaces its node when the arm
  changes, and the `Option` view.
- the runtime (`runtime.rs`, `runtime/ctx.rs`), listeners (`event.rs`),
  hooks and state (`state.rs`, `state/hook.rs`), `on_mount`/`on_render`
  (`lib.rs`), and the list keywords (`keywords.rs`, `list.rs`).
- the CLI: import-section parsing, symbol generation and `wbg` renaming
  (`build.rs`, `main.rs`), the `Cargo.toml` template (`init.rs`), and error
  reports (`report.rs`).
- the `sketch_macro` JavaScript generator (`gen.rs`), and the lookup-table
  classifier in `examples/hello_world/src/main.rs`.

DOM calls are modelled as a trace of effects on numbered host nodes
(`host.dfy`): `Built`, `Updated`, `Appended`, `Unmounted`, `Replaced`. The
children of a fragment after a trace are computed by replaying it, so "what
is mounted" is a function of the trace. Machine words are `usize`, and `u32`
for event ids. Both are 32 bits wide on `wasm32`, so the version and event-id
counters wrap at 2^32 (`Version.Drawn`). Bytes are a `byte` newtype
(0..255), except in `talk.dfy`, which uses `bv8` for `u8`.

## Model

| member | source | states |
|---|---|---|
| Bounded.FindMapFirst | crates/kobold/src/list/bounded.rs:114-116 | the trigger search answers None iff no stored product answers, and otherwise gives the first answer in order |
| Bounded.BoundedVec.constructor | crates/kobold/src/list/bounded.rs:138-143 | a new vector of capacity N is empty |
| Bounded.BoundedVec.Len | crates/kobold/src/list/bounded.rs:145-147 | the length is the number of initialised slots, never above the capacity |
| Bounded.BoundedVec.Deref | crates/kobold/src/list/bounded.rs:159-167 | the slice seen is exactly the initialised prefix |
| Bounded.BoundedVec.Push | crates/kobold/src/list/bounded.rs:125-134 | push succeeds iff there is room; on success the item is appended, and when full nothing changes |
| Bounded.BoundedVec.Set | crates/kobold/src/list/bounded.rs:169-175 | writing through the mutable slice replaces one initialised element, the length kept |
| Bounded.BoundedVec.Extend | crates/kobold/src/list/bounded.rs:149-156 | extend appends the items that fit, in order, and drops the rest |
| Bounded.BoundedProduct.constructor | crates/kobold/src/list/bounded.rs:21-34 | build stores one fresh product per view up to the capacity, all of them mounted (corrected; see ## Findings) |
| Bounded.BoundedProduct.Update | crates/kobold/src/list/bounded.rs:36-61 | after update the stored products carry the new views in order on their old nodes (new ones built), and exactly min(views, N) are mounted (corrected; see ## Findings) |
| Bounded.BoundedProduct.Pair | crates/kobold/src/list/bounded.rs:36-47 | the pairing step updates min(stored, views) products in place, their nodes kept |
| Bounded.BoundedProduct.Extend | crates/kobold/src/list/bounded.rs:63-77 | extend builds fresh products for the views that fit and marks every stored product mounted (corrected; see ## Findings) |
| Bounded.BoundedProduct.BuildAll | crates/kobold/src/list/bounded.rs:68-74 | the views are built and pushed in order while there is room: the stored products gain exactly the next min(views, room) fresh products, and the fragment holds all stored nodes in order (corrected; see ## Findings) |
| Bounded.BoundedProduct.Grow | crates/kobold/src/list/bounded.rs:57-59 | once every stored product took a view, the remaining views are extended, so exactly min(views, N) are mounted and each stored product carries the view at its position |
| Bounded.BoundedProduct.Build | crates/kobold/src/list/bounded.rs:63-77 | one more view gets the next node, appended after the others |
| Bounded.BoundedProduct.Unmount | crates/kobold/src/list/bounded.rs:79-86 | unmounting from k leaves exactly k mounted |
| Bounded.BoundedProduct.Mount | crates/kobold/src/list/bounded.rs:88-95 | mounting up to k leaves exactly k mounted |
| Bounded.BoundedProduct.Trigger | crates/kobold/src/list/bounded.rs:114-116 | an event goes to the stored products in order and the first answer wins |
| Bounded.ExtendAsWritten | crates/kobold/src/list/bounded.rs:63-77 | as written, push keeps min(stored + views, N) products (or the stored ones when already over N), yet every view takes the next node |
| Bounded.ExtendAsWrittenBuilds | crates/kobold/src/list/bounded.rs:68-74 | as written, every view is built and its node appended, in order, whether or not push keeps its product |
| Bounded.ExtendAsWrittenStores | crates/kobold/src/list/bounded.rs:68-74 | as written, the products stored are the first ones built, as many as fit |
| Bounded.OverflowLeavesUntrackedNode | crates/kobold/src/list/bounded.rs:68-74 | with capacity 1 and two views, a second node is appended that no stored product owns |
| Unbounded.ListProduct.constructor | crates/kobold/src/list/unbounded.rs:24-39 | build stores one fresh product per view, all of them mounted (corrected; see ## Findings) |
| Unbounded.ListProduct.Update | crates/kobold/src/list/unbounded.rs:41-71 | after update the products carry the new views in order on their old nodes (new ones built), and exactly as many are mounted as there are views (corrected; see ## Findings) |
| Unbounded.ListProduct.Walk | crates/kobold/src/list/unbounded.rs:48-68 | the update loop applies the views to the stored products in order and re-appends those that were unmounted |
| Unbounded.ListProduct.Refresh | crates/kobold/src/list/unbounded.rs:65-67 | one stored product is updated in place and re-appended when it was past the mounted count |
| Unbounded.ListProduct.Truncate | crates/kobold/src/list/unbounded.rs:49-61 | when the views run out, the mounted count becomes the number of views |
| Unbounded.ListProduct.UnmountRest | crates/kobold/src/list/unbounded.rs:49-61 | the products past the last view are unmounted, leaving exactly the first ones as children |
| Unbounded.ListProduct.UnmountNode | crates/kobold/src/list/unbounded.rs:52-58 | one more mounted product past the views leaves the fragment |
| Unbounded.ListProduct.Extend | crates/kobold/src/list/unbounded.rs:73-87 | extend builds fresh products for the remaining views, appends their nodes and counts every product mounted (corrected; see ## Findings) |
| Unbounded.ListProduct.Build | crates/kobold/src/list/unbounded.rs:73-87 | one more view gets the next node, appended after the others |
| Unbounded.BuildAsWritten | crates/kobold/src/list/unbounded.rs:24-39 | as written, build stores all products and mounts all their nodes in order, but leaves the mounted count at zero |
| Unbounded.UpdateAsWritten | crates/kobold/src/list/unbounded.rs:41-71 | as written, update applies the views but keeps a stale mounted count when the list does not shrink |
| Unbounded.StaleMountedCount | crates/kobold/src/list/unbounded.rs:73-87 | building three views and updating with one leaves nodes attached that the list no longer shows |
| Unbounded.Updates | crates/kobold/src/list/unbounded.rs:48-68 | the effects of the update loop: only updates and appends; every product paired with a view is updated, and exactly those at or past the mounted count are appended |
| Host.Builds | crates/kobold/src/list/unbounded.rs:73-87 | building lo..hi makes two effects per node |
| Host.BuildsAt | crates/kobold/src/list/unbounded.rs:73-87 | the effects of building lo..hi are, in order, each node lo + i built and then appended |
| Host.BuildsSpan | crates/kobold/src/list/unbounded.rs:73-87 | building and appending the nodes lo..hi after the nodes below lo leaves exactly the nodes below hi mounted, in order |
| Unbounded.Unmounts | crates/kobold/src/list/unbounded.rs:49-61 | truncation unmounts the products dropped from view, one by one, in order |
| Linked.Node.constructor | crates/kobold/src/list/unbounded/list.rs:44-61 | a new node holds its product and has no successor |
| Linked.LinkedList.constructor | crates/kobold/src/list/unbounded/list.rs:33-42 | a new list is empty, head and tail null |
| Linked.LinkedList.Push | crates/kobold/src/list/unbounded/list.rs:44-61 | push appends one node at the tail, the earlier nodes kept in place |
| Linked.LinkedList.Put | crates/kobold/src/list/unbounded/list.rs:96-107 | writing through the iterator's reference changes exactly one element |
| Linked.LinkedList.Iter | crates/kobold/src/list/unbounded/list.rs:63-70 | a new iterator starts at the head, position 0, bounded by the length |
| Linked.LinkedList.Drop | crates/kobold/src/list/unbounded/list.rs:20-30 | drop releases every element, in order |
| Linked.LinkedList.Collect | crates/kobold/src/list/unbounded/list.rs:96-107 | walking the list from the head yields exactly its contents |
| Linked.ListIter.constructor | crates/kobold/src/list/unbounded/list.rs:63-70 | the iterator starts at position 0 with the given bound |
| Linked.ListIter.Pos | crates/kobold/src/list/unbounded/list.rs:81-83 | the position is the number of nodes yielded so far |
| Linked.ListIter.Limit | crates/kobold/src/list/unbounded/list.rs:85-87 | limit lowers the bound to the limit, never raising it |
| Linked.ListIter.Next | crates/kobold/src/list/unbounded/list.rs:96-107 | next yields the node at the position and advances, or yields nothing at the bound |
| Linked.IteratorScenario | crates/kobold/src/list/unbounded/list.rs:114-129 | the module's iterator test: two pushes read back [42, 1337], a third adds 0xDEADBEEF |
| VecList.RenderedList.constructor | kobold/src/list.rs:77-98 | render builds one product per item, all visible |
| VecList.RenderedList.Update | kobold/src/list.rs:36-67 | after update the list carries the new items in order on their old nodes, and exactly as many are visible as there are items |
| VecList.RenderedList.Hide | kobold/src/list.rs:45-49 | products past the new items are unmounted and the visible count drops to the items updated |
| VecList.RenderedList.Reuse | kobold/src/list.rs:51-56 | hidden products are remounted and updated before any new one is built |
| VecList.RenderedList.Remount | kobold/src/list.rs:51-56 | remounting stops at whichever runs out first, stored products or items |
| VecList.RenderedList.RenderRest | kobold/src/list.rs:58-65 | the remaining items are rendered and appended, all visible |
| Diff.Memo.constructor | crates/kobold/src/diff.rs:206-227 | into_memo keeps the value as the memo |
| Diff.DiffValue | crates/kobold/src/diff.rs:206-227 | diff reports a change iff the value differs from the memo, and the memo then holds the value |
| Diff.DiffTwice | crates/kobold/src/diff.rs:163-204 | diffing the same value twice reports no change the second time |
| Diff.Ref.constructor | crates/kobold/src/diff.rs:237-243 | a Ref wraps its referent |
| Diff.Ref.Get | crates/kobold/src/diff.rs:237-248 | deref gives the referent |
| Diff.DiffRef | crates/kobold/src/diff.rs:251-268 | a Ref is changed iff its address differs from the memo, whatever the contents |
| Diff.AddressOnly | crates/kobold/src/diff.rs:251-268 | two Refs with equal contents at different addresses compare as changed |
| Diff.DiffNoDiff | crates/kobold/src/diff.rs:332-343 | Eager always reports a change and Static never does |
| Diff.Prop.constructor | crates/kobold/src/diff.rs:321-323 | building a no-diff attribute writes it once |
| Diff.Prop.Update | crates/kobold/src/diff.rs:325-329 | Eager writes the attribute again on every update, and Static leaves it untouched |
| Diff.FenceProduct.constructor | crates/kobold/src/diff.rs:122-129 | a fence builds the inner view and stores the guard as its memo |
| Diff.FenceProduct.Update | crates/kobold/src/diff.rs:131-135 | the inner view is re-rendered iff the guard changed, and the memo then holds the guard |
| Diff.InvarUpdate | crates/kobold/src/diff.rs:105 | an invariant view never changes its product |
| Version.Clock.constructor | crates/kobold/src/diff/ver.rs:14-24 | the version counter starts at 0 |
| Version.Clock.Next | crates/kobold/src/diff/ver.rs:14-24 | next_ver returns the counter and advances it by one, wrapping at 2^32 |
| Version.Drawn | crates/kobold/src/diff/ver.rs:14-24 | every version drawn is a usize |
| Version.DrawnNext | crates/kobold/src/diff/ver.rs:14-24 | drawing k then one more is drawing k + 1 |
| Version.DrawnDistinct | crates/kobold/src/diff/ver.rs:14-24 | fewer than 2^32 draws apart never give the same version |
| Version.DrawnWraps | crates/kobold/src/diff/ver.rs:14-24 | 2^32 draws apart give the same version again |
| Version.Ver.constructor | crates/kobold/src/diff/ver.rs:32-40 | a new Ver holds the value and draws a fresh version |
| Version.Ver.Deref | crates/kobold/src/diff/ver.rs:77-83 | reading gives the inner value and draws no version |
| Version.Ver.Modify | crates/kobold/src/diff/ver.rs:85-91 | a mutable borrow draws a new version and applies the write |
| Version.Ver.Eq | crates/kobold/src/diff/ver.rs:93-100 | equality compares the inner value only |
| Version.Ver.Hash | crates/kobold/src/diff/ver.rs:142-152 | hashing hashes the inner value only |
| Version.Ver.Diff | crates/kobold/src/diff/ver.rs:58-75 | a Ver is changed iff its version differs from the memo |
| Version.Ver.Fence | crates/kobold/src/diff/ver.rs:42-51 | fence guards the render with the current version |
| Version.WriteStr | crates/kobold/src/diff/ver.rs:120-128 | write_str appends the text and draws a new version |
| Version.MutationSeen | crates/kobold/src/diff/ver.rs:58-91 | after any mutable borrow the Ver diffs as changed, even when the value is equal |
| Branching.ReplaceInPlace | crates/kobold/src/branching.rs:179-185 | replacing a child puts the new node in the old one's place |
| Branching.SwitchInPlace | crates/kobold/src/branching.rs:146-150 | building the new arm and replacing leaves the new node where the old was, and every other child unchanged |
| Branching.BranchProduct.constructor | crates/kobold/src/branching.rs:123-129 | build records the arm and builds its product on a fresh node |
| Branching.BranchProduct.Update | crates/kobold/src/branching.rs:140-152 | the same arm updates in place; a different arm is built and replaces the old node |
| Branching.BranchProduct.Switch | crates/kobold/src/branching.rs:146-150 | switching arms builds a new product and replaces the old node with it |
| Branching.BranchProduct.Trigger | crates/kobold/src/branching.rs:131-138 | an event reaches the product only when the view's arm matches the stored arm |
| Branching.BranchProduct.Js | crates/kobold/src/branching.rs:163-169 | the node is the current arm's |
| Branching.BranchProduct.Unmount | crates/kobold/src/branching.rs:171-177 | unmount removes the current arm's node |
| Branching.BranchProduct.ReplaceWith | crates/kobold/src/branching.rs:179-185 | replace_with replaces the current arm's node |
| Branching.OptionArm | crates/kobold/src/branching.rs:222-250 | Some is arm 0 and None is arm 1 |
| Branching.BuildOption | crates/kobold/src/branching.rs:225-230 | an Option builds the arm it holds |
| Branching.UpdateOption | crates/kobold/src/branching.rs:239-250 | None over None changes nothing, Some over Some updates in place, and a change of arm replaces the node |
| Branching.TriggerOption | crates/kobold/src/branching.rs:232-237 | only Some over a Some product forwards the event |
| Runtime.FromUnit | crates/kobold/src/runtime.rs:68-72 | a handler returning unit asks for a render |
| Runtime.EventContext.Get | crates/kobold/src/runtime.rs:23-29 | the event is given iff the id matches |
| Runtime.RuntimeData.constructor | crates/kobold/src/runtime.rs:115-119 | the runtime holds the built product, the trigger and the update |
| Runtime.RuntimeData.Update | crates/kobold/src/runtime.rs:47-57 | the app re-renders unless the event's trigger answers Stop |
| Runtime.NextEventId | crates/kobold/src/runtime.rs:87-93 | each id is the counter, which then advances by one, wrapping at 2^32 |
| Runtime.Thread.constructor | crates/kobold/src/runtime.rs:74-80 | the event counter is 0, INIT is false, the slot empty and nothing built |
| Runtime.Thread.Start | crates/kobold/src/runtime.rs:103-124 | the first start renders and builds the view once, appends its node to the body and fills the slot; later calls change nothing |
| Runtime.Thread.Trigger | crates/kobold/src/runtime.rs:126-134 | an event updates the runtime in the slot (unless silenced) and puts it back |
| Runtime.Thread.LockUpdate | crates/kobold/src/runtime.rs:136-148 | the closure runs only with a runtime present, and the app re-renders iff it answers Render |
| Runtime.StartTwice | crates/kobold/src/runtime.rs:108-111 | a second start builds nothing and keeps the first app |
| RuntimeCtx.Inc | crates/kobold/src/runtime/ctx.rs:39-49 | each nesting raises the state id by one |
| RuntimeCtx.SidInjective | crates/kobold/src/runtime/ctx.rs:34-48 | different nesting depths have different state ids |
| RuntimeCtx.Stack | crates/kobold/src/runtime/ctx.rs:101-143 | the attached hooks, innermost last, as many as the depth |
| RuntimeCtx.WithState | crates/kobold/src/runtime/ctx.rs:82-135 | with_state never changes the depth of the hook stack |
| RuntimeCtx.WithStateAt | crates/kobold/src/runtime/ctx.rs:110-135 | the callback runs iff a hook of the right type sits at the state id, and only that hook changes; otherwise nothing changes |
| RuntimeCtx.New | crates/kobold/src/runtime/ctx.rs:57-64 | a new context carries the event and id and no states |
| RuntimeCtx.Attach | crates/kobold/src/runtime/ctx.rs:191-201 | attach pushes one hook, keeping the event and id |
| RuntimeCtx.Eid | crates/kobold/src/runtime/ctx.rs:180-182 | eid gives the context's event id |
| RuntimeCtx.With | crates/kobold/src/runtime/ctx.rs:203-214 | with finds the hook by state id and type and runs the callback on its state and the event |
| RuntimeCtx.AttachedFound | crates/kobold/src/runtime/ctx.rs:191-214 | a hook just attached is found under the next state id |
| Event.ListenerProduct.constructor | crates/kobold/src/event.rs:118-124 | a listener draws a fresh event id |
| Event.ListenerProduct.Update | crates/kobold/src/event.rs:126-128 | update replaces the closure and keeps the id |
| Event.ListenerProduct.Trigger | crates/kobold/src/event.rs:156-164 | the closure runs and Stop is answered iff the event id matches |
| Event.TwoListeners | crates/kobold/src/event.rs:118-164 | of two listeners only the one whose id matches hears the event |
| Hooks.Hook.constructor | crates/kobold/src/state/hook.rs:82-87 | a hook holds its state |
| Hooks.Hook.Deref | crates/kobold/src/state/hook.rs:74-80 | deref gives the state |
| Hooks.Hook.Get | crates/kobold/src/state/hook.rs:129-134 | get is a copy of the state |
| Hooks.Hook.Bind | crates/kobold/src/state/hook.rs:91-103 | bind pairs the callback with this hook |
| Hooks.Hook.Build | crates/kobold/src/state/hook.rs:143-145 | a hook builds as the view of its state |
| Hooks.Hook.Update | crates/kobold/src/state/hook.rs:147-149 | a hook updates as the view of its state |
| Hooks.Bound.Trigger | crates/kobold/src/state/hook.rs:166-170 | the callback runs on the hook's state iff the event id matches |
| Hooks.BindRunsNothing | crates/kobold/src/state/hook.rs:91-103 | binding does not run the callback; triggering does |
| State.StatefulProduct.constructor | crates/kobold/src/state.rs:75-80 | build initialises the state and builds the view rendered from it |
| State.StatefulProduct.Update | crates/kobold/src/state.rs:82-84 | update re-renders from the stored state and keeps it |
| State.StatefulProduct.Js | crates/kobold/src/state.rs:94-96 | the node is the inner product's |
| State.StatefulProduct.Unmount | crates/kobold/src/state.rs:98-100 | unmount goes to the inner product |
| State.StatefulProduct.ReplaceWith | crates/kobold/src/state.rs:102-104 | replace_with goes to the inner product |
| State.StatefulProduct.Trigger | crates/kobold/src/state.rs:112-116 | the event goes to the inner product with this state attached |
| State.OnceProduct.constructor | crates/kobold/src/state.rs:183-188 | once builds as stateful and runs the handler exactly once |
| State.OnceProduct.Update | crates/kobold/src/state.rs:190-192 | update does not run the handler again |
| State.OnceProduct.Js | crates/kobold/src/state.rs:151-153 | the node is the inner product's |
| Lifecycle.Build | crates/kobold/src/lib.rs:449-455 | build calls the handler once with the built node |
| Lifecycle.Update | crates/kobold/src/lib.rs:457-459 | on_mount calls nothing on update; on_render calls its handler with the node |
| Lifecycle.Repeat | crates/kobold/src/lib.rs:482-486 | k handler calls with the same node |
| Lifecycle.RunCalls | crates/kobold/src/lib.rs:412-486 | over any run the node is kept; on_mount's handler runs once, on_render's once per build and update |
| ListView.New | crates/kobold/src/keywords.rs:23-29 | the `for` keyword wraps the iterator unbounded |
| ListView.NewBounded | crates/kobold/src/keywords.rs:52-54 | `for<N>` wraps the iterator bounded to N |
| ListView.Build | crates/kobold/src/list.rs:47-49 | an unbounded list builds all its views, mounted (corrected; see ## Findings) |
| ListView.Update | crates/kobold/src/list.rs:51-53 | an unbounded list update applies all its views |
| ListView.BuildBounded | crates/kobold/src/list.rs:63-65 | a bounded list builds at most N views (corrected; see ## Findings) |
| ListView.UpdateBounded | crates/kobold/src/list.rs:67-69 | a bounded list update applies at most N views |
| ListView.BuildVec | crates/kobold/src/list.rs:72-97 | a Vec or slice builds as an unbounded list of its elements (corrected; see ## Findings) |
| ListView.UpdateVec | crates/kobold/src/list.rs:72-97 | a Vec or slice updates as an unbounded list of its elements |
| ListView.BuildArray | crates/kobold/src/list.rs:99-104 | an array builds every element, its capacity its length |
| ListView.UpdateArray | crates/kobold/src/list.rs:105-109 | an array update reaches every element |
| ListView.Use | crates/kobold/src/keywords.rs:59-61 | `use` makes an Eager value, applied on every render |
| ListView.Static | crates/kobold/src/keywords.rs:63-66 | `static` makes a Static value, applied only when built |
| Report.New | crates/cli/src/report.rs:17-26 | a report holds the converted error and the message |
| Report.Message | crates/cli/src/report.rs:28-36 | a message-only report holds no error |
| Report.Display | crates/cli/src/report.rs:43-50 | the message, then ": " and the error when there is one |
| Report.WithMessage | crates/cli/src/report.rs:59-68 | Ok passes through; an error is wrapped with the message |
| Report.DisplayError | crates/cli/src/report.rs:73-79 | the wrapper displays as the inner error |
| Report.DisplayShowsError | crates/cli/src/report.rs:43-50 | the display starts with the message, and equals it iff there is no error |
| Report.WithMessageDisplay | crates/cli/src/report.rs:59-68 | a wrapped error displays as message, ": ", error |
| Talk.Discriminant | examples/hello_world/src/main.rs:20-26 | the `repr(u8)` discriminant indexes the three-entry table |
| Talk.ParseTable | examples/hello_world/src/main.rs:32-40 | the lookup table has 256 entries |
| Talk.Parse | examples/hello_world/src/main.rs:31-43 | 'a' is a letter and '.' punctuation |
| Talk.IsAlphanumeric | examples/hello_world/src/main.rs:47-58 | letters and digits are alphanumeric, punctuation is not |
| Talk.ParseCoverage | examples/hello_world/src/main.rs:31-43 | only 'a' and '.' classify; every other byte is an error and none is a digit |
| Symbol.LetterIndex | crates/cli/src/build.rs:228-230 | every letter of the alphabet has one index below 52 |
| Symbol.Symbol | crates/cli/src/build.rs:227-247 | the loop writes the bijective base-52 name of n, all letters |
| Symbol.SymbolLetters | crates/cli/src/main.rs:275-295 | a symbol is non-empty and made only of ASCII letters |
| Symbol.SmallSymbols | crates/cli/src/build.rs:234-246 | 0..51 are one letter; 52 is "aa", 53 "ba", 103 "Za" |
| Symbol.DecodeSymbol | crates/cli/src/build.rs:227-247 | decoding a symbol gives back its number |
| Symbol.SymbolDecode | crates/cli/src/build.rs:227-247 | every non-empty string of letters is the symbol of its decoding |
| Symbol.LetterIndexUnique | crates/cli/src/build.rs:235 | the alphabet lists each letter once |
| Symbol.DivModUnique | crates/cli/src/build.rs:235-239 | quotient and remainder by 52 are unique |
| Symbol.SymbolInjective | crates/cli/src/build.rs:227-247 | different imports get different symbols |
| WasmImports.FindFrom | crates/cli/src/build.rs:181 | the search finds the first occurrence at or after a position |
| WasmImports.Find | crates/cli/src/build.rs:171 | `str::find` gives the first occurrence, or none |
| WasmImports.TrimHead | crates/cli/src/build.rs:310-317 | the head is cut back to end at the import-section id, and no id byte is dropped past it |
| WasmImports.PrependTwice | crates/cli/src/build.rs:339-342 | pushing imports one at a time keeps their order |
| WasmImports.StartsAtSuffix | crates/cli/src/build.rs:326 | a match in the remaining bytes is a match at that position |
| WasmImports.RecordsAt | crates/cli/src/build.rs:326-346 | reading a record at a position: out of bounds, missing name, short type, or one import and the rest |
| WasmImports.ScanStart | crates/cli/src/build.rs:322-324 | the scan starts at the first `\x03wbg` |
| WasmImports.SkipToWbg | crates/cli/src/build.rs:322-324 | the skipping loop stops at the first `\x03wbg` |
| WasmImports.ReadRecord | crates/cli/src/build.rs:327-344 | one pass of the record loop reads one import or fails as the records do |
| WasmImports.Scan | crates/cli/src/build.rs:319-346 | the scan reads exactly the records following the first `\x03wbg` |
| WasmImports.RecordsCons | crates/cli/src/build.rs:326-346 | one encoded wbg entry reads back as one import |
| WasmImports.RecordsRoundTrip | crates/cli/src/build.rs:326-346 | reading well-formed wbg entries gives back exactly those imports |
| WasmImports.RecordsWellFormed | crates/cli/src/build.rs:331-342 | every import read has a name under 256 bytes and a two-byte type |
| WasmImports.Parse | crates/cli/src/build.rs:271-359 | parse returns size, head and tail around the section, and every wbg import, or panics when the count differs or a record is broken; the head is the longest prefix before the section's size byte that is empty or ends in the section id, so no id byte lies between it and the section |
| WasmImports.DecodeCons | crates/cli/src/build.rs:203-206 | one entry written reads back as that entry |
| WasmImports.DecodeEncode | crates/cli/src/build.rs:203-206 | the entries written read back in order |
| WasmImports.EncodeAllSnoc | crates/cli/src/build.rs:203-206 | writing one more entry appends its bytes |
| WasmImports.SymbolBytes | crates/cli/src/build.rs:204-205 | the symbol's bytes, as long as the symbol |
| WasmImports.SymbolLength | crates/cli/src/build.rs:227-247 | a number below 52^k has a symbol of at most k letters |
| WasmImports.ShortSymbol | crates/cli/src/build.rs:204 | every u32 import index has a symbol of at most 6 letters, so its length fits the length byte |
| WasmImports.Renamed | crates/cli/src/build.rs:203-206 | a renamed import is written under module `_` with its symbol and type |
| WasmImports.Kept | crates/cli/src/build.rs:203-206 | (corrected; see ## Findings) a guess at the intended entry of a skipped import: module `_`, its own name and its type, laid out as a renamed entry is |
| WasmImports.Locate | crates/cli/src/build.rs:181-192 | the import name is missing (panic), follows `.wbg.` (renamed, split around it), or not (skipped) |
| WasmImports.Steps | crates/cli/src/build.rs:180-192 | the loop's decisions: each import is looked up in the text left by the renames before it; one missing panics with the import message |
| WasmImports.StepsAt | crates/cli/src/build.rs:180-192 | each import's step is Locate applied to what the earlier steps left |
| WasmImports.StepsConsume | crates/cli/src/build.rs:192-208 | the text after `.wbg` is what the renames consumed (each `.wbg.` and name, with the text before them) followed by what is left |
| WasmImports.MissingImport | crates/cli/src/build.rs:181-187 | the loop panics iff some import, at its turn, is missing from the text left |
| WasmImports.AllRenamed | crates/cli/src/build.rs:188-206 | when every name first occurs right behind `.wbg.` at its turn, every import gets its renamed entry |
| WasmImports.Entries | crates/cli/src/build.rs:188-206 | import n gets the renamed entry iff its step renamed it, else the kept one (corrected; see ## Findings) |
| WasmImports.Mangle | crates/cli/src/build.rs:171-216 | (corrected; see ## Findings) panics iff `.wbg` is missing or the loop panics; else the JS is the text before the first `.wbg`, then `._`, then each rename's text and `._.` and symbol, then the rest; the section has one entry per import, renamed or kept as its step says; the JS shrinks by the bytes saved plus 2 |
| WasmImports.RenameImports | crates/cli/src/build.rs:180-211 | the loop writes exactly what Steps decides: the renamed text and the entries (corrected; see ## Findings) |
| WasmImports.MangleText | crates/cli/src/build.rs:171-211 | the input JS is the output with `._` put back as `.wbg` and every `._.` and symbol put back as `.wbg.` and the name |
| WasmImports.MangleAsWritten | crates/cli/src/build.rs:180-209 | as written, the import count is written up front whatever the loop skips |
| WasmImports.SkippedImportLost | crates/cli/src/build.rs:186-190 | an import not preceded by `.wbg.` is counted but never written |
| WasmImports.EmbedAutoreload | crates/cli/src/build.rs:78-82 | the autoreload script is embedded iff Always, or Auto in a debug build |
| Init.Split | crates/cli/src/init.rs:65-67 | splitting on ':' gives colon-free pieces that join back into the input |
| Init.SplitJoin | crates/cli/src/init.rs:65-67 | colon-free pieces joined with ':' split back into themselves |
| Init.Lookup | crates/cli/src/init.rs:68-73 | NAME gives the name, KOBOLD_VERSION the version, anything else panics |
| Init.Fill | crates/cli/src/init.rs:65-80 | filling succeeds iff every odd chunk is a key |
| Init.MakeCargoToml | crates/cli/src/init.rs:61-80 | the loop fills the template, and copies a template without ':' unchanged |
| Init.FillAround | crates/cli/src/init.rs:65-80 | text, key, text fills to the text around the key's value |
| Init.SplitAround | crates/cli/src/init.rs:65-67 | text:key:text splits into the three pieces |
| Init.Substitute | crates/cli/src/init.rs:69-70 | :NAME: is replaced by the name and :KOBOLD_VERSION: by the version |
| Codegen.Decimal | sketch_macro/src/gen.rs:29-36 | a number's decimal digits, one digit iff below 10 |
| Codegen.DecimalInjective | sketch_macro/src/gen.rs:29-36 | different numbers have different decimals |
| Codegen.IdentFactory.constructor | sketch_macro/src/gen.rs:22-27 | a factory starts at 0 with its prefix |
| Codegen.IdentFactory.Next | sketch_macro/src/gen.rs:29-36 | next names the current number after the prefix and advances |
| Codegen.Name | sketch_macro/src/gen.rs:29-36 | a name is the prefix followed by the decimal |
| Codegen.NamesDistinct | sketch_macro/src/gen.rs:29-36 | two names are equal iff their numbers are |
| Codegen.TextStatement | sketch_macro/src/gen.rs:62-67 | the text statement declares its name and ends with ';' (corrected; see ## Findings) |
| Codegen.ElementStatement | sketch_macro/src/gen.rs:69-77 | the element statement declares its name by document.createElement of the quoted tag and ends with ';' |
| Codegen.FragmentStatement | sketch_macro/src/gen.rs:78-86 | the fragment statement declares its name by document.createDocumentFragment() and ends with ';' |
| Codegen.AppendStatement | sketch_macro/src/gen.rs:120 | the append statement starts with the element's name and ends with ';' |
| Codegen.ArgList | sketch_macro/src/gen.rs:87-97 | the argument list is empty iff no expression was seen |
| Codegen.ArgNames | sketch_macro/src/gen.rs:87-97 | the argument tokens are a0, a1, ... in order |
| Codegen.ArgListJoined | sketch_macro/src/gen.rs:90-94 | the argument list is the argument names joined by commas |
| Codegen.Opened | sketch_macro/src/gen.rs:69-86 | an element or fragment is declared by a `const` at the end of the code, taking the next variable; the statement appended is ElementStatement for an element and FragmentStatement for a fragment |
| Codegen.Argument | sketch_macro/src/gen.rs:87-97 | an expression takes the next argument, which joins the argument list and tokens, and writes no code |
| Codegen.Gen | sketch_macro/src/gen.rs:60-99 | generate names the root e<n> (a<n> for an expression), counts one variable per element and fragment and one argument per expression, keeps the script well formed, declares a non-expression root by a `const` right where the code stood, and adds an expression's argument without writing code (corrected; see ## Findings) |
| Codegen.Piece | sketch_macro/src/gen.rs:104-117 | a text child is its own text, verbatim, and writes nothing; an element or fragment child is declared in the code; an expression child is an argument |
| Codegen.Children | sketch_macro/src/gen.rs:101-118 | the children are generated in order, their counts summed, and there is one piece per child: its text, a declared name, or an argument |
| Codegen.Append | sketch_macro/src/gen.rs:101-123 | append generates the children, counts them, and keeps the script well formed |
| Codegen.DeclaredBeforeAppend | sketch_macro/src/gen.rs:69-123 | an element's code is its declaration, its children's code, then one `append` on it of the children's pieces joined by commas in order; every element or fragment named there is declared before the call |
| Codegen.Generator.constructor | sketch_macro/src/gen.rs:49-58 | a new generator has no variables, arguments or script |
| Codegen.Generator.NextEl | sketch_macro/src/gen.rs:142-146 | next_el names the next e<n> and counts it |
| Codegen.Generator.Generate | sketch_macro/src/gen.rs:60-99 | generate changes the generator's state exactly as Gen describes |
| Codegen.Generator.ChildPiece | sketch_macro/src/gen.rs:104-117 | one child as Piece describes |
| Codegen.Generator.AppendChildren | sketch_macro/src/gen.rs:101-123 | the append loop changes the state exactly as Append describes |
| Codegen.Generator.RenderJs | sketch_macro/src/gen.rs:125-128 | the function is named render followed by the decimal byte length of the comma-joined argument list, and its text is built from that name, the arguments, the render code and the root |
| Codegen.RenderNameTwoArgs | sketch_macro/src/gen.rs:126 | two expressions give the argument list a0,a1, five bytes long, so the function is named render5 |
| Codegen.FreshGeneration | sketch_macro/src/gen.rs:49-99 | from a fresh generator a non-expression root is e0, the arguments are a0.. one per expression, one element is made per non-inlined node, and the code ends in ';' |
| Codegen.WholeStatements | sketch_macro/src/gen.rs:60-99 | generating an element, fragment or text from a well-formed state leaves non-empty code that ends a statement (corrected; see ## Findings) |
| Codegen.TextRootUnterminated | sketch_macro/src/gen.rs:62-67 | as written, a text root's statement lacks its ';'; the corrected one has it |

## Left out

- DOM and other `web_sys`/`wasm_bindgen` calls. They are modelled as a trace of effects on numbered nodes, not as real nodes. `internal.rs`, `dom.rs` and `js.rs` are not part of this model. The shape of the macro's `Node` tree is inferred from how `gen.rs` uses it.
- Raw pointers, `UnsafeCell`, `MaybeUninit`, `Box::leak` and the lifetimes that make them sound. A hook's state is a class field, and the runtime slot holds one runtime object.
- Re-entrancy is modelled only as the runtime being taken out of its slot while it runs.
- Runtime.NextEventId: models the release-build wrap of the `u32` counter. A debug build panics on overflow instead.
- Version.Clock.Next: the wrap at 2^32 assumes a 32-bit `usize`, as on `wasm32`.
- Floating-point `Diff` impls. They are treated like the other `PartialEq` values, so the diff of `NaN` is not modelled.
- `Signal` and its `todo!` methods. `once` passes a marker value.
- `runtime/ctx.rs` is compiled out in this version of the repository (`mod ctx` is commented out in `runtime.rs`). It is modelled as written.
- Import-section location by `wasmparser`. Parse takes the section's start, end and count as parameters.
- The UTF-8 check on import names ("Invalid import name"). Names are kept as bytes.
- The LEB128 writes of the import count and the section size.
- File reads and writes, process spawning (`cargo`, `wasm-bindgen`, `wasm-opt`), `serve.rs`, `manifest.rs`, `log.rs`, the HTML index and `write_file`.
- Codegen.ElementStatement: the tag is written with `{:?}` (sketch_macro/src/gen.rs:72). Quote puts it in double quotes but does not escape it, so a tag holding `"` or `\` is not modelled. A text is written with `{}` and is already a JavaScript literal, so Codegen.TextStatement writes it as it is.
- The `update` string field of the generator. It is never written.
- Codegen.Generator.RenderJs: the token stream of the `extern` block is modelled as a string.
- Hooks.Hook.Get: `Copy` is not modelled separately. Get returns the state value.
- WasmImports.Kept: the source writes no entry for a skipped import, so its intended entry is a guess. The model leaves the JavaScript around a skipped import as it is, so nothing shows that the module `_` provides that name at load time.
- `Empty::update` (crates/kobold/src/branching.rs:212-220) has an empty body. It has no member of its own. An `Option` with `None` over its `B` arm does nothing either, and Branching.UpdateOption states that with `unchanged(p)`.

## Findings

| source | as written | input that shows it | evidently intended | confidence | as-written member | corrected member |
|---|---|---|---|---|---|---|
| crates/kobold/src/list/unbounded.rs:73-87 | `extend` builds and appends new products but never raises `mounted`, and `build` leaves it at 0 | build with three views, then update with one: the loop unmounts only up to the stale count, so nodes the list no longer shows stay attached | `mounted` counts every product appended | medium, not executed | Unbounded.StaleMountedCount | Unbounded.ListProduct.Extend |
| crates/kobold/src/list/bounded.rs:68-74 | every view past the capacity is still built and its node appended before `push` drops the product | capacity 1, two views: a second node is attached that no product owns | views past the capacity are not built | medium, not executed | Bounded.OverflowLeavesUntrackedNode | Bounded.BoundedProduct.Extend |
| crates/cli/src/build.rs:186-190 | an import whose name is not preceded by `.wbg.` is skipped without writing its entry, while the count written up front includes it | one import `a` and the JavaScript `.wbg a`: the count is 1 but no entry is written | every import is written, renamed or kept | medium, not executed | WasmImports.SkippedImportLost | WasmImports.Mangle |
| sketch_macro/src/gen.rs:62-67 | a text node's statement is written without a trailing `;`, unlike the other statements | a view whose root is the text "hi" | every statement ends with `;` | medium, not executed | Codegen.TextRootUnterminated | Codegen.Gen |
