# async-modal in Dafny

A model of the two layers of async-modal, with proofs about them.

The lower layer is the event bus of `event-emiter.ts`. It is a multicast dispatcher keyed by event name. Its only state is the map `events` from event names to listener lists. A string name is trimmed and split on runs of white space (`multiName`); a symbol is never split. The operations are:

- `on`: append a listener under each split name.
- `only`: do nothing when the unsplit name is already a key, else `on`.
- `once`: register a wrapper that removes itself before it calls the original.
- `emit`: call every listener of each split name, then collect the results with `Promise.all`.
- `off`: filter a listener out by identity or by its back-reference `_`, or delete the entry.
- `clear`: start over with an empty map.

The upper layer is the settlement logic of `asyncModal` in `index.tsx`:

- **Defaulting.** The props are defaulted, and the dialog's class name is built from them.
- **Wiring.** A fresh emitter gets two listeners: `submit` resolves the returned promise and destroys the dialog; `close` rejects it and destroys the dialog.
- **The `ok` closure.** It emits `ok` and takes the first result. It passes that result through `onOk` when one is given, then emits `submit` with the value.
- **The `cancel` closure.** It emits `cancel`, runs `onCancel`, then emits `close`.
- **The wrappers.** `asyncModalify`, `asyncConfirm` and `asyncAlert` are thin layers over `asyncModal`.

Files:

- `wrappers.dfy` (module `Wrappers`): `Option`.
- `event_names.dfy` (module `EventNames`): event names, the JavaScript white-space set, `trim`, `split(/\s+/)` and `multiName`.
- `emitter_spec.dfy` (module `EmitterSpec`): what each emitter operation does to the map, as functions, plus the lemmas about them.
- `emitter.dfy` (module `EventBus`): class `Emitter`. It has the field `events`. Each method is proved to change that field exactly as the matching `EmitterSpec` function says.
- `modal_spec.dfy` (module `ModalSpec`): props defaulting, the class name, first-wins settlement, the wiring invariant of the invocation's emitter, and the ok/cancel value logic. It also holds `asyncModalify`, `asyncConfirm` and `asyncAlert`.
- `modal.dfy` (module `AsyncModal`): class `Invocation`, one call of `asyncModal`. It has the emitter, `let v`, the promise and a destroy counter.

How things are represented:

- **Listeners.** A listener is an identity. `Fn(id)` is a function someone supplied. `Wrapper(serial, name, original)` is the closure `once` builds: `serial` is its identity and `original` is its `_`.
- **Serials.** `Emitter.created` counts the wrappers built so far. That keeps every new wrapper distinct from every registered one.
- **Replies.** What a called function does is given by a `reply` function from identities to `Return(v)`, `Reject` (it returned a promise that rejects) or `Throw` (it threw synchronously).
- **A synchronous throw** ends the `forEach`/`map` loops of `emit` at once, and `emit` throws.
- **A rejected promise** does not end the loops; only the `Promise.all` result rejects.
- **A failing `cancel` handler.** The `cancel` closure awaits the `cancel` emit (index.tsx:92). So a failing `cancel` handler stops the cancel path before `onCancel` and `close`. The model follows the code here; it does not follow a reading in which cancellation can never be blocked.
- **`off(name, fn)` on a missing name.** The source dereferences `undefined` there and throws. The model returns `ok == false`, and the names before the missing one are already filtered.

## Model

| member | source | states |
|---|---|---|
| `EventNames.Trim` | event-emiter.ts:20 | `trim()` leaves no white space at either end, and leaves a string that has none there unchanged |
| `EventNames.TrimStart` | event-emiter.ts:20 | only a leading run of white-space characters is dropped, and what is left starts with a non-space |
| `EventNames.TrimStartSuffix` | event-emiter.ts:20 | what trimming the front leaves is a suffix of the string |
| `EventNames.TrimEnd` | event-emiter.ts:20 | only a trailing run of white-space characters is dropped, and what is left ends with a non-space |
| `EventNames.Split` | event-emiter.ts:20 | `split(/\s+/)` always yields at least one piece and no piece holds white space; if the string is non-empty with no white space at either end, every piece is non-empty (where the cuts fall is pinned by `SplitCollapse`) |
| `EventNames.Tokens` | event-emiter.ts:20 | the pieces of a trimmed string: a blank string gives `[""]`, otherwise every piece is non-empty and free of white space |
| `EventNames.MultiName` | event-emiter.ts:15-21 | a symbol gives exactly itself; a string gives at least one string name, none holding white space; a blank string gives `[""]`, otherwise the names are non-empty |
| `EventNames.SplitJoin` | event-emiter.ts:20 | splitting non-empty space-free tokens joined by single spaces gives those tokens back |
| `EventNames.SplitAtSpace` | event-emiter.ts:20 | a space-free piece followed by one space and a string that starts with a non-space splits into that piece, then the pieces of the rest |
| `EventNames.MultiNameJoin` | event-emiter.ts:15-21 | `multiName` of tokens joined by spaces is exactly those tokens, in order |
| `EventNames.MultiNameSingle` | event-emiter.ts:15-21 | a non-empty name without white space is one event name |
| `EventNames.MultiNamePadded` | event-emiter.ts:20 | a leading space is trimmed away: `' ' + s` names the same single event as `s` |
| `EventNames.SplitKeepsText` | event-emiter.ts:20 | splitting drops only white space: the pieces laid end to end are the non-space characters of the string, in order |
| `EventNames.TokensKeepText` | event-emiter.ts:20 | the names of a string are its non-space characters, in order, cut into pieces |
| `EventNames.Collapse` | event-emiter.ts:20 | a reference definition, character by character: every maximal white-space run becomes one space (a white-space character is dropped when white space follows it) |
| `EventNames.SplitCollapse` | event-emiter.ts:20 | for a non-empty string with no white space at either end, the pieces of `split(/\s+/)` joined by single spaces are the string with every white-space run collapsed to one space: the cuts fall exactly at the runs |
| `EventNames.JoinInjective` | event-emiter.ts:20 | two lists of non-empty space-free tokens with the same single-space join are the same list |
| `EventNames.TokensCollapse` | event-emiter.ts:20 | the pieces of a non-blank string are non-empty and space-free, and joined by single spaces they are the trimmed string with its white-space runs collapsed |
| `EventNames.MultiNameCollapse` | event-emiter.ts:15-21 | `multiName` of a string is exactly the list of tokens whose single-space join is the trimmed, collapsed string, and no other list |
| `EventNames.MultiNameSeparated` | event-emiter.ts:15-21 | two tokens separated by any non-empty run of white space (tabs and line breaks included) are exactly two names |
| `EventNames.MultiNameTab` | event-emiter.ts:20 | `multiName('ok\tcancel')` is the two names `ok` and `cancel` |
| `EventNames.MultiNameRun` | event-emiter.ts:20 | `multiName(' a  b ')` is the two names `a` and `b`: the padding is trimmed and the double space is one separator |
| `EmitterSpec.Register` | event-emiter.ts:30-43 | the map after `on`: `l` pushed onto each split name's list in turn, a missing list created first; `RegisterSpec` states what that means |
| `EmitterSpec.RegisterSpec` | event-emiter.ts:30-43 | after `on(name, l)` the keys are the old keys plus the split names; each name's list is its old list followed by `l` once per occurrence among the split names (duplicates kept); other lists are unchanged |
| `EmitterSpec.RegisterOnce` | event-emiter.ts:34-40 | a name that occurs once among the split names gains exactly `l` at its end |
| `EmitterSpec.RegisterWellFormed` | event-emiter.ts:30-43 | `on` keeps the map invariant: string keys are space-free and every wrapper comes from an earlier `once` |
| `EmitterSpec.OnlyRegister` | event-emiter.ts:46-48 | the map after `only` as written: unchanged when the unsplit name is a key, otherwise `on`; `OnlyBindsTwice` and `OnlyEachAgrees` are about it |
| `EmitterSpec.OnlyBindsTwice` | event-emiter.ts:45-48 | the code as written: for any single name `s`, `only(' ' + s, l)` twice (`only(' ok', l)`, say) binds `l` twice under `s` |
| `EmitterSpec.OnlyUnkeyedTwice` | event-emiter.ts:45-48 | the code as written: any name that is not itself a key but splits to the single name `n` binds `l` twice under `n` when passed to `only` twice |
| `EmitterSpec.OnlyEach` | event-emiter.ts:45-48 | the intended `only`: `l` is bound under each split name that has no entry yet; `OnlyEachSpec` and `OnlyEachIdempotent` are about it |
| `EmitterSpec.OnlyEachSpec` | event-emiter.ts:45-48 | the intended `only`: afterwards every split name has an entry, existing entries are untouched, and new ones hold exactly `l` |
| `EmitterSpec.OnlyEachIdempotent` | event-emiter.ts:45-48 | the intended `only` called twice is the same as called once |
| `EmitterSpec.OnlyEachAgrees` | event-emiter.ts:46-48 | for a name that is one token, the intended `only` is the source's `only` |
| `EmitterSpec.Remove` | event-emiter.ts:88 | `filter(item => item !== fn && item._ !== fn)`; `RemoveSpec`, `RemoveAppend` and `RemoveTwice` are about it |
| `EmitterSpec.RemoveSpec` | event-emiter.ts:88 | `filter` keeps exactly the entries that are neither `fn` nor a wrapper whose `_` is `fn`, and never lengthens the list |
| `EmitterSpec.RemoveAppend` | event-emiter.ts:88 | filtering works piecewise, so the kept entries stay in their order |
| `EmitterSpec.RemoveNothing` | event-emiter.ts:88 | a list with nothing to remove is unchanged |
| `EmitterSpec.RemoveTwice` | event-emiter.ts:88 | filtering twice is filtering once |
| `EmitterSpec.Detach` | event-emiter.ts:81-89 | the map after `off(name, fn)` and whether it completed: each split name filtered in turn, stopping at the first name without an entry; the `Detach` lemmas are about it |
| `EmitterSpec.DetachShape` | event-emiter.ts:81-96 | `off(name, fn)` never adds or deletes a key; each list becomes either itself or its filtered copy |
| `EmitterSpec.DetachOk` | event-emiter.ts:84-89 | `off(name, fn)` completes without throwing if and only if every split name has an entry |
| `EmitterSpec.DetachFiltered` | event-emiter.ts:84-89 | a completed `off(name, fn)` filters every split name's list and leaves every other list unchanged |
| `EmitterSpec.DetachFilteredAt` | event-emiter.ts:84-89 | after a completed `off(name, fn)`, an existing entry is still there, filtered when its name is a split name and unchanged otherwise |
| `EmitterSpec.DetachStops` | event-emiter.ts:84-89 | once `off` has thrown at a missing name, no later split name is touched |
| `EmitterSpec.DetachRemovesWrapped` | event-emiter.ts:88 | after a completed `off(name, fn)`, no split name holds `fn` or any `once` wrapper of `fn` |
| `EmitterSpec.DetachWithin` | event-emiter.ts:81-96 | `off(name, fn)` only ever removes listeners |
| `EmitterSpec.FreshWrapper` | event-emiter.ts:53-59 | a wrapper built by the next `once` is registered nowhere yet |
| `EmitterSpec.Unregister` | event-emiter.ts:90-92 | the map after `off(name)`: the split names' entries deleted; `UnregisterStep` relates it to the delete loop |
| `EmitterSpec.UnregisterStep` | event-emiter.ts:90-92 | `off(name)` deletes the entries one split name at a time |
| `EmitterSpec.UnregisterWellFormed` | event-emiter.ts:90-92 | deleting entries keeps the map invariant |
| `EmitterSpec.Invoke` | event-emiter.ts:53-57 | one call of a listener: a caller's function is called; a `once` wrapper runs `off(name, wrapper)` and calls its original only if that completed; `InvokeSpec` states what that means |
| `EmitterSpec.Quiet` | event-emiter.ts:53-88 | a listener whose call cannot throw from a map with the given keys: a caller's function that does not throw, or a `once` wrapper whose names all have an entry (so `this.events.get(n)!` at :88 is defined) around such a listener |
| `EmitterSpec.InvokeSpec` | event-emiter.ts:53-57 | calling a listener calls its target function at most once, and a caller's function exactly once; a `once` wrapper of a function calls it if and only if its self-removal completed, and throws having called nobody when that removal threw; the call throws exactly when the listener is not `Quiet`: a caller's function throws exactly when its reply is a throw, a wrapper of one exactly when its `off` met a name without an entry or its function threw; a call only ever removes listeners, and the recorded reply matches the call |
| `EmitterSpec.InvokeOnce` | event-emiter.ts:53-57 | a `once` wrapper that is its name's only listener empties that list, then calls its original exactly once |
| `EmitterSpec.RunList` | event-emiter.ts:75 | `events.map(fn => tasks.push(fn(...args)))` over a list fetched once, ended by a synchronous throw; `RunListSpec` states what that means |
| `EmitterSpec.RunNames` | event-emiter.ts:68-76 | `names.forEach`: each split name's list fetched when its turn comes and run, nothing after a throw; `RunNamesSpec`, `RunNamesNext` and `RunNamesStops` are about it |
| `EmitterSpec.EmitRun` | event-emiter.ts:64-79 | a whole `emit(name)`: the run over the split names from the current map; `EmitSnapshot`, `EmitInOrder` and `OnceRemovesItself` are about it |
| `EmitterSpec.RunListSpec` | event-emiter.ts:75 | running a fetched list calls the targets of a prefix of it, in order, and the whole list unless a call threw; a listener removed meanwhile does not make the run skip anything after it |
| `EmitterSpec.RunListCalls` | event-emiter.ts:75 | the calls of a run over a list are the targets of a prefix of it, the whole list unless a call threw, and at least the head when that is a plain function |
| `EmitterSpec.RunListCoherent` | event-emiter.ts:75 | running a list keeps every reply matched with its call and only ever removes listeners |
| `EmitterSpec.RunListStops` | event-emiter.ts:75 | after a throw, the rest of the list is not called |
| `EmitterSpec.RunNamesStops` | event-emiter.ts:68-76 | after a throw, the remaining split names are not looked at |
| `EmitterSpec.RunNamesNext` | event-emiter.ts:68-76 | one more split name either changes nothing (after a throw, or when the name has no entry) or runs the list that name has at that moment |
| `EmitterSpec.RunListAppend` | event-emiter.ts:75 | running two pieces of a list one after the other is running the whole list |
| `EmitterSpec.RunNamesSpec` | event-emiter.ts:64-79 | a whole `emit` keeps every reply matched with its call and only ever removes listeners |
| `EmitterSpec.RunNamesShrinks` | event-emiter.ts:64-79 | `emit` deletes no key and adds no listener |
| `EmitterSpec.EmitSnapshot` | event-emiter.ts:69-75 | `emit` of one name calls the targets of the list that name had when the emit began, in registration order, all of them unless a call threw |
| `EmitterSpec.EmitUnregistered` | event-emiter.ts:69-73 | names without an entry contribute nothing and are no error: the emit calls nobody and fulfils with `[]` |
| `EmitterSpec.EmitInOrder` | event-emiter.ts:64-79 | with no `once` wrappers and no throwing function, `emit` changes no list and calls every registered function name by name in split order, and in registration order within a name |
| `EmitterSpec.Settle` | event-emiter.ts:78 | `Promise.all(tasks)`, or the exception that ended the emit; `SettleSpec` states what that means |
| `EmitterSpec.SettleSpec` | event-emiter.ts:78 | `emit` throws exactly when a throw ended the run (when that happens is stated by `InvokeSpec`, `RunListThrows` and `EmitQuiet`); it rejects exactly when no call threw and some call's promise rejected; otherwise it fulfils with every result in call order |
| `EmitterSpec.RunListThrows` | event-emiter.ts:75 | a run over a fetched list throws if and only if one of its listeners is not `Quiet` for the map's keys |
| `EmitterSpec.RunNamesQuiet` | event-emiter.ts:68-76 | a run over names throws only at a listener that is not `Quiet`: when every listener registered under the names is quiet, the run does not throw |
| `EmitterSpec.EmitQuiet` | event-emiter.ts:64-79 | `emit` throws only at a caller's function that throws or at a `once` wrapper whose `off` meets a name without an entry: with every listener under the split names quiet, it does not throw |
| `EmitterSpec.OnceQuiet` | event-emiter.ts:50-62 | right after `once(name, f)` the wrapper is `Quiet` exactly when `f` does not throw, since `on` gave every name it will detach from an entry; with `EmitQuiet` this meets the no-throw premise of `OnceRemovesItself` |
| `EmitterSpec.OnceRemovesItself` | event-emiter.ts:50-79 | a `once` wrapper that an emit calls (it is in the list fetched for any of the split names) is gone, when the emit ends without a throw, from every name `once` registered it under |
| `EmitterSpec.OnceGoneAfter` | event-emiter.ts:68-76 | the same for a run over any names: later names run after the wrapper's own call only ever remove listeners |
| `EmitterSpec.OnceListGone` | event-emiter.ts:53-57 | a `once` wrapper in a fetched list that runs to its end without a throw is gone afterwards from all its names |
| `EmitterSpec.OnceRunsOnce` | event-emiter.ts:50-62 | `once(n, f)` as the only listener of `n`: the first emit calls `f` and empties the list, and a second emit calls nobody |
| `EmitterSpec.EmitAfterClear` | event-emiter.ts:98-100 | after `clear()`, every emit calls nobody and fulfils with `[]` |
| `EmitterSpec.OnceRepeatedCallsTwice` | event-emiter.ts:50-75 | the code as written: `once('a a', f)` puts its wrapper twice on `a`, and `emit('a')` calls `f` twice |
| `EmitterSpec.Distinct` | event-emiter.ts:34 | the split names without repeats, each where it first occurs |
| `EmitterSpec.DistinctCount` | event-emiter.ts:34 | every split name occurs exactly once among the distinct names, and no other name occurs |
| `EmitterSpec.OnceEachSpec` | event-emiter.ts:50-62 | the intended `once`, registering under the distinct split names: each split name's list gains the wrapper exactly once, at its end, and other lists are unchanged |
| `EmitterSpec.OnceEachCallsOnce` | event-emiter.ts:50-75 | with the intended `once('a a', f)`, `emit('a')` calls `f` exactly once and leaves `a` with an empty list |
| `EventBus.Emitter.constructor` | event-emiter.ts:26-28 | a new emitter has an empty map |
| `EventBus.Emitter.On` | event-emiter.ts:30-43 | `on` changes the map exactly as `Register` of the split names says, and keeps the invariant |
| `EventBus.Emitter.PushAll` | event-emiter.ts:34-40 | the `forEach` loop: on each name in turn, an entry is created if missing, then `fn` is pushed |
| `EventBus.Emitter.Only` | event-emiter.ts:46-48 | `only` leaves the map unchanged when the unsplit name is a key, even one with an empty list; otherwise it is `on` |
| `EventBus.Emitter.Once` | event-emiter.ts:50-62 | `once` registers a new wrapper whose `_` is `fn` and whose name is the one given, under every split name |
| `EventBus.Emitter.Off` | event-emiter.ts:81-96 | with a function: the map becomes `Detach`'s result, and `ok` says whether the source completed or threw. Without one: the split names' entries are deleted. The invariant is kept |
| `EventBus.Emitter.FilterAll` | event-emiter.ts:84-89 | the loop with a function: the lists are filtered in turn, stopping at the first missing name |
| `EventBus.Emitter.DeleteAll` | event-emiter.ts:90-92 | the loop without a function: each split name's entry is deleted |
| `EventBus.Emitter.Call` | event-emiter.ts:53-57 | calling a listener: a wrapper first runs `off(name, wrapper)` and calls its original only if that did not throw |
| `EventBus.Emitter.CallNames` | event-emiter.ts:68-76 | the `names.forEach` loop of `emit`: its map, calls, replies and throw are those of `RunNames` over the split names |
| `EventBus.Emitter.CallEach` | event-emiter.ts:75 | the `map` over one fetched list is `RunList` of that list |
| `EventBus.Emitter.Emit` | event-emiter.ts:64-79 | the map, the calls made and what `emit` hands back are those of `EmitRun`; the invariant is kept |
| `EventBus.Emitter.Clear` | event-emiter.ts:98-100 | `clear` leaves an empty map |
| `ModalSpec.Defaults` | index.tsx:64-76 | the destructuring with defaults: every undefined prop takes its default; `DefaultsOfNothing`, `DefaultsKeepGiven` and `DefaultsPerField` are about it |
| `ModalSpec.DefaultsOfNothing` | index.tsx:64-76 | with no props: title and class name `''`; `centered`, `footer`, `closable` and `cancelBtn` true; button texts "确定" and "取消" |
| `ModalSpec.DefaultsKeepGiven` | index.tsx:64-76 | a prop that is given is taken as it is, even when empty or false |
| `ModalSpec.DefaultsPerField` | index.tsx:64-76 | each of the eight settings depends only on its own prop: two props that agree on one field give the same setting for it |
| `ModalSpec.ClassName` | index.tsx:131 | `` `async-modal${className ? ` ${className}` : ''}` ``; `ClassNameRoundTrip` and `ClassNameInjective` are about it |
| `ModalSpec.ClassNameRoundTrip` | index.tsx:131 | the class name starts with `async-modal`; it is exactly `async-modal` if and only if the class name given is empty; otherwise the character after `async-modal` is a space and the given class follows it and can be read back |
| `ModalSpec.ClassNameInjective` | index.tsx:131 | different class names given give different dialog class names |
| `ModalSpec.SettleOnce` | index.tsx:140 | `resolve`/`reject` on a promise: only the first settlement counts |
| `ModalSpec.Step` | index.tsx:139-147 | one listener call's effect on the promise: `submit` resolves with the emitted value, `close` rejects, any other listener leaves it |
| `ModalSpec.Fire` | index.tsx:139-147 | the promise after an emit, its calls applied in order; `FireSettled`, `FireQuiet`, `FireDecides` and `FireFirst` are about it |
| `ModalSpec.Terminals` | index.tsx:141 | how many calls are of the two listeners that call `modal.destroy()` |
| `ModalSpec.FireSettled` | index.tsx:139-147 | once the promise is settled, no later `resolve` or `reject` changes it |
| `ModalSpec.FireQuiet` | index.tsx:139-147 | calls of listeners other than the invocation's own neither settle the promise nor destroy the dialog |
| `ModalSpec.FireDecides` | index.tsx:139-147 | the promise ends up settled if and only if it already was or one of the two terminal listeners was called |
| `ModalSpec.FireFirst` | index.tsx:139-147 | the first terminal listener called decides the outcome: `submit` resolves with the emitted value, `close` rejects |
| `ModalSpec.WiringRegister` | index.tsx:139-147 | a content listener registered under any name keeps the two terminal listeners at the heads of their lists |
| `ModalSpec.Respond` | index.tsx:139-147 | what the listeners answer: the invocation's two return `undefined`, the content's answer as given |
| `ModalSpec.EmitKeepsWiring` | index.tsx:79 | an emit from the invocation's wired map leaves the map unchanged |
| `ModalSpec.SubmitSettles` | index.tsx:139-142 | `emit('submit', v)` resolves a pending promise with `v` and calls `destroy` exactly once |
| `ModalSpec.CloseSettles` | index.tsx:144-147 | `emit('close')` rejects a pending promise and calls `destroy` exactly once |
| `ModalSpec.QuietEmit` | index.tsx:82-92 | the emit of any single-token name other than `submit` and `close` (the `ok` and `cancel` emits among them) neither settles nor destroys |
| `ModalSpec.OkQuiet` | index.tsx:82 | the `ok` emit of the wired map settles nothing and destroys nothing |
| `ModalSpec.CancelQuiet` | index.tsx:92 | the `cancel` emit of the wired map settles nothing and destroys nothing |
| `ModalSpec.First` | index.tsx:82 | `[v] = ...`: the first value, `undefined` when there is none |
| `ModalSpec.OkValue` | index.tsx:82-88 | the value the ok path submits, given what the `ok` emit handed back: none when that emit or `onOk` failed; `OkTakesFirst`, `OkBlocked` and `OkWithoutHandlers` are about it |
| `ModalSpec.OnOkApplied` | index.tsx:84-86 | `v` after `onOk` when one is given: its value, or none when it failed |
| `ModalSpec.CancelGoesOn` | index.tsx:92-98 | whether the cancel path reaches its `close` emit: the `cancel` emit fulfilled and `onCancel`, if given, succeeded; `CancelBlocked` is about it |
| `ModalSpec.OkWithoutHandlers` | index.tsx:82 | with no `ok` handler and no `onOk`, the ok path submits `undefined` |
| `ModalSpec.OkTakesFirst` | index.tsx:81-89 | when every `ok` handler succeeds, the candidate is the first handler's value, replaced by what `onOk` gives when `onOk` is set; a failing `onOk` submits nothing |
| `ModalSpec.CalmFirst` | index.tsx:82-85 | for any single-token name whose handlers are plain functions that all succeed, the emit fulfils and the ok path's candidate is the first handler's answer, passed through `onOk` |
| `ModalSpec.EmitFails` | index.tsx:82-92 | a failing handler of a single-token name makes the emit reject or throw |
| `ModalSpec.RunListFails` | event-emiter.ts:75-78 | a failing call in a fetched list makes the run throw or leaves a rejected reply for `Promise.all` |
| `ModalSpec.OkBlocked` | index.tsx:82-88 | if an `ok` handler fails, `submit` is not emitted, so the dialog stays open |
| `ModalSpec.CancelBlocked` | index.tsx:92-98 | if a `cancel` handler fails, neither `onCancel` nor the `close` emit runs |
| `ModalSpec.ModalifyProps` | index.tsx:159-163 | the props of the modalified component: `{}` when omitted, the object itself, or the getter applied to the component's props; `ModalifyChoice` states what that means |
| `ModalSpec.ModalifyChoice` | index.tsx:159-163 | a props function is called with the component's props; a props object is used unchanged whatever the component's props; an omitted argument is `{}` |
| `ModalSpec.ConfirmProps` | index.tsx:180-191 | the props `asyncConfirm` passes: title, texts and an `onOk` that returns `true`; `ConfirmSpec` states what that means |
| `ModalSpec.ConfirmSpec` | index.tsx:180-192 | `asyncConfirm` defaults its title to "提示" and its texts to "确定"/"取消" and keeps both buttons; an ok path that gets past the `ok` emit submits `true` |
| `ModalSpec.AlertProps` | index.tsx:200-209 | the props `asyncAlert` passes: title, `okText` and `cancelBtn: false` |
| `ModalSpec.AlertOutcome` | index.tsx:203-213 | `try { await ... } catch {} finally { return true }`: `true` once the inner promise settles either way; `AlertSpec` states what that means |
| `ModalSpec.AlertSpec` | index.tsx:200-214 | `asyncAlert` has no cancel button and no `onOk`; it resolves with `true` as soon as the inner dialog settles, whichever way, and never rejects |
| `AsyncModal.Invocation.constructor` | index.tsx:64-147 | the props are defaulted and the class name built; a new emitter holds exactly the `submit` and `close` listeners; the promise is pending and nothing is destroyed |
| `AsyncModal.Invocation.ContentOn` | index.tsx:105-113 | the content's `emitter.on` is the emitter's `on`, and keeps the wiring |
| `AsyncModal.Invocation.Emit` | index.tsx:139-147 | an emit leaves the map unchanged; every call of a terminal listener settles the promise (first wins) and calls `destroy` |
| `AsyncModal.Invocation.OkPressed` | index.tsx:81-89 | `submit` is emitted exactly when the `ok` emit and `onOk` succeed; `v` is then the value `OkValue` gives; a pending promise resolves with it; `destroy` is called once. Otherwise the promise and the dialog are unchanged, and `v` is the first `ok` result when only `onOk` failed, its old value when the `ok` emit failed |
| `AsyncModal.Invocation.EmitOk` | index.tsx:82 | `await emitter.emit('ok')` gives the `EmitRun` outcome and leaves the map, `v`, the promise and the dialog unchanged |
| `AsyncModal.Invocation.CancelPressed` | index.tsx:91-99 | `close` is emitted exactly when the `cancel` emit and `onCancel` succeed; a pending promise is then rejected and `destroy` called once; otherwise nothing changes |
| `AsyncModal.Invocation.EmitCancel` | index.tsx:92 | `await emitter.emit('cancel')` gives the `EmitRun` outcome and leaves the map, `v`, the promise and the dialog unchanged |
| `AsyncModal.Invocation.Submit` | index.tsx:139-142 | the content's `emit('submit', value)` always destroys once, and resolves with `value` unless the promise was already settled |
| `AsyncModal.Invocation.Close` | index.tsx:144-147 | the content's `emit('close')` always destroys once, and rejects unless the promise was already settled |
| `AsyncModal.NewWired` | index.tsx:79-147 | `new Emitter()` followed by the `submit` and `close` registrations gives exactly the wired map |

## Left out

- Rendering is not modelled: the title, body and footer markup, `React.Children.map`/`cloneElement`, and the buttons (index.tsx:101-125). Which button or key triggers the `ok` and `cancel` closures is not modelled. `footer`, `closable`, `cancelBtn` and `centered` are only defaulted.
- `Modal.confirm` from antd is not modelled (index.tsx:127-137). The dialog is kept only as the count of `destroy` calls. `width`, `icon` and the `...others` pass-through are left out.
- Promise timing and the event loop are not modelled. An emit is a synchronous fold. Awaiting a promise is modelled by its final reply. The `close` emit at index.tsx:98 is not awaited, and the model treats it as happening at once.
- Listener arguments are not modelled beyond the value a terminal listener receives. A supplied function's answer is a function of its identity: within one emit, the same function answers the same way every time.
- Listener bodies are opaque, so re-entrant emits and `on`/`off` from inside a listener are left out. The one exception is the `once` wrapper's own `off`.
- The content's access to the emitter is limited to `on` with a function and `emit`. `AsyncModal.Invocation.ContentOn` requires a non-terminal identity, because the closures registered at index.tsx:139-147 are private. The content is assumed to register listeners only after `asyncModal` has registered its own two. antd renders the dialog content after `Modal.confirm` returns, so the two come first.
- `EventBus.Emitter.On` requires only that a wrapper passed in carries a serial already handed out (`serial < created`); it does not check that `once` built that very wrapper. A caller cannot obtain a `once` closure other than from `once`.
- `off(name, fn)` on a missing name throws in the source. The model returns `ok == false` and does not propagate an exception.
- The symbol check of `multiName` is `typeof name === 'symbol'`. Symbols are `Sym(token)` and are never split. Strings are not normalised beyond `trim` and `\s`.
- The meaning of the Chinese literals is not modelled; they are constants only. The storybook file `async-modal.stories.tsx` is not part of this model.

## Findings

| source | as written | input that shows it | evidently intended | confidence | as-written member | corrected member |
|---|---|---|---|---|---|---|
| event-emiter.ts:45-48 | `only` tests `events.has(name)` on the unsplit name, while `on` registers the trimmed, split names | `only(' ok', f)` twice: the key `' ok'` never exists, so `f` is bound twice under `ok` | the comment says "bind only once, never bind twice": each split name gets `f` only if it has no entry yet | medium, not executed | `EmitterSpec.OnlyBindsTwice` | `EmitterSpec.OnlyEachIdempotent` |
| event-emiter.ts:50-75 | `once` registers its one wrapper under every split name, repeats included, and `emit` runs the list it fetched before any removal | `once('a a', f)` then `emit('a')`: the list fetched is `[w, w]`; the first call's `off` empties the map's list, the second copy is still called, and `f` runs twice | a `once` handler runs at most once, so a repeated name should register the wrapper once | low, not executed | `EmitterSpec.OnceRepeatedCallsTwice` | `EmitterSpec.OnceEachCallsOnce` |
