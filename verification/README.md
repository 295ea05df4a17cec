# Kaptivate core, modelled in Dafny

Kaptivate captures keyboard and mouse events system-wide on Windows. It lets
application handlers decide, per event, whether the event reaches the rest of
the system. This project models the parts of the library that hold real logic
in this revision:

- **Event queues** (`event_queue.dfy`, module `EventQueues`). There are four
  independent FIFOs of event pointers: keyboard, mouse button, mouse wheel and
  mouse move. Enqueue pushes at the tail. Dequeue pops the head, or yields NULL
  on an empty queue. The class `EventQueue` holds the four queues as `seq`
  fields. `Pop`, `Drain` and `Run` give the meaning of dequeue and of any
  interleaving of operations on one queue.
- **Handler chains** (`event_chain.dfy`, module `EventChains`).
  `KeyboardEventChain` and `MouseEventChain` have identical code. Both are the
  generic class `HandlerChain<H>`: an ordered vector of handler references,
  newest first. NULL handlers are ignored.
- **Device snapshot** (`event_dispatcher.dfy`, module `EventDispatchers`).
  `scanDevices` empties the keyboard and mouse maps (handle to name). It then
  refills them from the platform's raw-input device list. The list, and what
  each device-name query reports, are inputs (`RawDevice`, `NameQuery`). The
  spec function `Snapshot` folds the loop body `Admit` over the list. The
  dispatcher's `handle*` and `enumerate*` methods are stubs in this revision,
  and are modelled as such.
- **Hook gate** (`hooks.dfy`, module `Hooks`). The shared data segment of the
  hook DLL is the class `HookDll` and the value `Shared`.
  `hookInit`/`hookUninit`/`hookPause`/`hookUnpause` are guarded transitions.
  The keyboard and mouse hook procedures decide whether to ask the callback
  window, and whether to swallow the event. `SetWindowsHookEx` and
  `SendMessageTimeout`/`GetLastError` are inputs: the hook handle returned
  (0 on failure), and a `Reply`. A hook procedure's answer is `Consumed`
  (return 1) or `CallNext(hook)`, which hands the event to `CallNextHookEx`
  with that hook handle.
- **Singleton lifecycle** (`kaptivate.dfy`, module `Singleton`). These are the
  two static fields `instanceFlag` and `singleton` of `KaptivateAPI`.
  Allocation success is an input. Allocation failure is the
  `KaptivateException` result.

`events.dfy` holds the value types of `kaptivate/kaptivate.hpp`: `Decision`,
the event records, `DeviceInfo`, handler identities and a `Pointer` (NULL or a
reference). `wrappers.dfy` holds `Option` and `Result`.

The queue, dispatcher and hook methods are proved against a spec function
over the class's abstract value (`Pop`, `Snapshot`, the hook `*Step`
functions). The chain and singleton methods state their new fields directly;
removal is stated through the spec function `Without`. Where the source's own
promise spans several calls, it is stated by a lemma about those functions.

The headers declare blocking, stop and registration machinery that this
revision does not implement; the model follows the code:

- The queues neither block nor stop.
- Dequeue returns NULL on an empty queue.
- Registration, unregistration and dispatch have empty bodies.
- `enumerateKeyboards`/`enumerateMice` return empty lists.

Notes on the code as written, modelled faithfully:

- `mouseEvent` hands an event the window did not claim (a zero reply, or a
  failed send other than a timeout) on with the *keyboard* hook handle
  (`Kaptivate/hooks.cpp:136`). Its other two hand-ons use the mouse handle.
- The hook procedures initialise the reply value to 0 before asking the
  window. A failed send is taken to leave it at 0, so only a window that
  answered with a positive value can swallow an event.
- `hookInit` stores the window, messages and timeout before either hook is set.
- If the mouse hook fails, the keyboard hook stays installed, and `hookUninit`
  never releases it (see `Hooks.MouseHookFailureLeavesKeyboardHook`).
- `hookUninit` keeps `_paused`. A later `hookInit` therefore starts paused if
  the DLL was paused before.

## Model

| member | source | states |
|---|---|---|
| `EventQueues.EventQueue.constructor` | kaptivate/event_queue.cpp:37-39 | all four queues start empty |
| `EventQueues.EventQueue.EnqueueKeyboardEvent` | kaptivate/event_queue.cpp:45-48 | the pointer (NULL included) is appended at the tail; that queue grows by one; the other three queues are unchanged |
| `EventQueues.EventQueue.DequeueKeyboardEvent` | kaptivate/event_queue.cpp:50-59 | on an empty queue: NULL, and no queue changes; otherwise: the head, and the queue becomes its old tail; the other queues are unchanged |
| `EventQueues.EventQueue.EnqueueMouseButtonEvent` | kaptivate/event_queue.cpp:61-64 | as for the keyboard queue, on the mouse-button queue only |
| `EventQueues.EventQueue.DequeueMouseButtonEvent` | kaptivate/event_queue.cpp:66-75 | as for the keyboard queue, on the mouse-button queue only |
| `EventQueues.EventQueue.EnqueueMouseWheelEvent` | kaptivate/event_queue.cpp:77-80 | as for the keyboard queue, on the mouse-wheel queue only |
| `EventQueues.EventQueue.DequeueMouseWheelEvent` | kaptivate/event_queue.cpp:82-91 | as for the keyboard queue, on the mouse-wheel queue only |
| `EventQueues.EventQueue.EnqueueMouseMoveEvent` | kaptivate/event_queue.cpp:93-96 | as for the keyboard queue, on the mouse-move queue only |
| `EventQueues.EventQueue.DequeueMouseMoveEvent` | kaptivate/event_queue.cpp:98-107 | as for the keyboard queue, on the mouse-move queue only |
| `EventQueues.DrainInOrder` | kaptivate/event_queue.cpp:50-59 | n dequeues return the queued pointers front to back; once the queue is empty, each further dequeue returns NULL |
| `EventQueues.RunSteps` | kaptivate/event_queue.cpp:45-59 | each step of an operation run is the one the queue methods state: an enqueue appends at the tail, a dequeue is `Pop` (the head, or NULL and no change on an empty queue) |
| `EventQueues.RunIsFifo` | kaptivate/event_queue.cpp:45-59 | FIFO under any interleaving of enqueues and dequeues: what was removed, then what remains, equals the initial queue followed by every enqueued pointer in order |
| `EventQueues.NullResultIsAmbiguous` | kaptivate/event_queue.cpp:47-53 | dequeue returns NULL exactly when the queue is empty or its head is a queued NULL, so NULL alone does not prove emptiness |
| `EventQueues.KeyboardFifoClient` | kaptivate/event_queue.cpp:45-59 | two pushed keyboard pointers come back in push order, then NULL; the mouse queues are untouched |
| `EventChains.HandlerChain.constructor` | kaptivate/event_chain.cpp:38-40 | a new chain is empty |
| `EventChains.HandlerChain.ClearHandlers` | kaptivate/event_chain.cpp:46-49 | the chain becomes empty, so its size is 0 |
| `EventChains.HandlerChain.AddHandler` | kaptivate/event_chain.cpp:51-55 | NULL leaves the chain unchanged; otherwise the handler is at index 0, the old handlers follow in order, and the size grows by one even when the handler is already present |
| `EventChains.HandlerChain.RemoveHandler` | kaptivate/event_chain.cpp:57-65 | removing NULL changes nothing; otherwise the chain becomes `Without(old chain, h)`: every copy of h dropped, the rest in order (the intended behaviour; see Findings) |
| `EventChains.HandlerChain.ChainSize` | kaptivate/event_chain.cpp:67-70 | the number of stored handlers, truncated to `unsigned int` |
| `EventChains.Without` | kaptivate/event_chain.cpp:57-65 | no copy of h remains; a chain without h is returned unchanged |
| `EventChains.WithoutCounts` | kaptivate/event_chain.cpp:57-65 | removal drops exactly the copies of h; every other handler keeps its multiplicity |
| `EventChains.WithoutDistributes` | kaptivate/event_chain.cpp:57-65 | removal works piecewise over a concatenation, so the kept handlers stay in their relative order |
| `EventChains.EraseLoopAsWrittenDiverges` | kaptivate/event_chain.cpp:60-64 | the erase loop as written leaves a copy of h behind in [h, h, g], and runs past the end on [g, h]; the intended removal yields [g] in both cases |
| `EventChains.ChainClient` | kaptivate/event_chain.cpp:46-70 | through the keyboard chain interface: newest first, no deduplication, removal of every copy, and clear to empty |
| `EventDispatchers.EventDispatcher.constructor` | kaptivate/event_dispatcher.cpp:40-42 | both device maps start empty |
| `EventDispatchers.EventDispatcher.ScanDevices` | kaptivate/event_dispatcher.cpp:92-179 | both maps are rebuilt as `Snapshot(list)`: the previous contents are discarded, so the result depends only on the enumerated list; it uses the corrected fetch guard (see Findings; the guard as written is `SnapshotAsWritten`) |
| `EventDispatchers.SnapshotCharacterized` | kaptivate/event_dispatcher.cpp:132-173 | a handle is recorded iff some entry for it is a keyboard or mouse whose name lookup fully succeeded; the first such entry decides the map (by its type) and the info (its handle and name), and the handle is then in no other map |
| `EventDispatchers.SnapshotDisjoint` | kaptivate/event_dispatcher.cpp:137-140 | no handle is in both the keyboard map and the mouse map |
| `EventDispatchers.SnapshotProvenance` | kaptivate/event_dispatcher.cpp:154-167 | every recorded info has its map key as `device`, and the key occurs in the list with that map's type |
| `EventDispatchers.FetchErrorAcceptedAsWritten` | kaptivate/event_dispatcher.cpp:151 | the unsigned `> 0` guard accepts the (UINT)-1 error return, which a successful fetch never returns, and accepts every return the corrected guard accepts (see Findings) |
| `EventDispatchers.FetchErrorRecordedAsWritten` | kaptivate/event_dispatcher.cpp:143-167 | the scan as written records a keyboard whose name fetch returned (UINT)-1, with the unfilled buffer as its name; the corrected scan records nothing for it |
| `EventDispatchers.AsWrittenAgreesWithoutFetchError` | kaptivate/event_dispatcher.cpp:132-173 | on any list where no name fetch returns (UINT)-1, the scan as written and the corrected scan build the same maps |
| `EventDispatchers.EventDispatcher.HandleKeyboard` | kaptivate/event_dispatcher.cpp:48-50 | the event, decision included, is left as it came |
| `EventDispatchers.EventDispatcher.HandleMouseButton` | kaptivate/event_dispatcher.cpp:52-54 | the event is left as it came |
| `EventDispatchers.EventDispatcher.HandleMouseWheel` | kaptivate/event_dispatcher.cpp:56-58 | the event is left as it came |
| `EventDispatchers.EventDispatcher.HandleMouseMove` | kaptivate/event_dispatcher.cpp:60-62 | the event is left as it came |
| `EventDispatchers.EventDispatcher.EnumerateKeyboards` | kaptivate/event_dispatcher.cpp:64-68 | always the empty list |
| `EventDispatchers.EventDispatcher.EnumerateMice` | kaptivate/event_dispatcher.cpp:70-74 | always the empty list |
| `Hooks.HookDll.constructor` | Kaptivate/hooks.cpp:52-61 | the shared segment starts with every field zero |
| `Hooks.HookDll.KeyboardEvent` | Kaptivate/hooks.cpp:70-102 | follows `KeyboardStep`, and writes only the keyboard flag |
| `Hooks.HookDll.MouseEvent` | Kaptivate/hooks.cpp:105-137 | follows `MouseStep`, and writes only the mouse flag |
| `Hooks.HookDll.HookInit` | Kaptivate/hooks.cpp:140-165 | follows `InitStep` |
| `Hooks.HookDll.HookUninit` | Kaptivate/hooks.cpp:168-195 | follows `UninitStep` |
| `Hooks.HookDll.HookPause` | Kaptivate/hooks.cpp:198-207 | follows `PauseStep`, and writes only `paused` |
| `Hooks.HookDll.HookUnpause` | Kaptivate/hooks.cpp:210-219 | follows `UnpauseStep`, and writes only `paused` |
| `Hooks.ClosedGatePasses` | Kaptivate/hooks.cpp:73-76 | if nCode < 0, paused, no window, flag dead, uninitialized or message 0, the event is handed on and nothing changes (mouse: line 108) |
| `Hooks.KeyboardDecision` | Kaptivate/hooks.cpp:82-101 | with the gate open: a timeout clears only `kbHookAlive` and hands the event on; the event is consumed iff the window answered with a reply > 0, so a zero reply or any failed send hands it on; the mouse flag is never touched |
| `Hooks.MouseDecision` | Kaptivate/hooks.cpp:117-136 | the same rule over `mouseHookAlive`: consumed iff the window answered with a reply > 0; the keyboard flag is never touched |
| `Hooks.InitOutcome` | Kaptivate/hooks.cpp:140-165 | on an initialized segment: 0, and no change; otherwise 0 with every flag armed iff both hooks were set, -1 iff the keyboard hook failed, -2 iff only the mouse hook failed, and on failure still uninitialized |
| `Hooks.FailedInitPassesEverything` | Kaptivate/hooks.cpp:142-157 | after a failed hookInit, both procedures hand every event on without asking the window |
| `Hooks.MouseHookFailureLeavesKeyboardHook` | Kaptivate/hooks.cpp:152-157 | when only the mouse hook fails, the keyboard hook handle stays recorded, and hookUninit leaves it in place |
| `Hooks.UninitOutcome` | Kaptivate/hooks.cpp:168-195 | a no-op when uninitialized; otherwise every field except `paused` is zeroed; always returns 0 |
| `Hooks.PauseOutcome` | Kaptivate/hooks.cpp:198-219 | -1 and no change when uninitialized; otherwise `paused` set or cleared with 0; repeating either call is idempotent |
| `Hooks.ReinitRearms` | Kaptivate/hooks.cpp:160-192 | hookUninit followed by a successful hookInit re-arms both procedures |
| `Hooks.DeadKeyboardHookStaysDead` | Kaptivate/hooks.cpp:73-88 | after a timeout has killed the keyboard flag, every later keyboard event is handed on unasked, through any calls that avoid hookUninit (hookInit meanwhile is a no-op) |
| `Hooks.PausedPassesEverything` | Kaptivate/hooks.cpp:73-108 | while paused, every keyboard and mouse event is handed on until hookUnpause; hookUninit and hookInit do not clear the pause |
| `Singleton.Statics.constructor` | kaptivate/kaptivate.cpp:41-42 | no instance and the flag clear |
| `Singleton.Statics.GetInstance` | kaptivate/kaptivate.cpp:53-71 | with the flag set: the held instance, and nothing changes; otherwise a fresh instance becomes the singleton with the flag set, or allocation fails with KaptivateException and the flag stays clear; the flag/instance invariant is kept |
| `Singleton.Statics.DestroyInstance` | kaptivate/kaptivate.cpp:74-83 | a no-op without an instance; otherwise both fields are cleared |
| `Singleton.GetInstanceTwice` | kaptivate/kaptivate.cpp:55-70 | two getInstance calls return the same object |
| `Singleton.RecreateAfterDestroy` | kaptivate/kaptivate.cpp:55-82 | after destroyInstance, getInstance allocates a new object, which becomes the singleton |

## Findings

| source | as written | input that shows it | evidently intended | confidence | as-written member | corrected member |
|---|---|---|---|---|---|---|
| kaptivate/event_chain.cpp:57-65 (and 93-101) | `handlers.erase(it)` inside the loop, then `it++` on the invalidated iterator | removing h from [h, h, g] leaves [h, g]; removing h from [g, h] steps `it` past `end()` (undefined behaviour) | drop every entry equal to h and keep the others in order | not executed; high (iterator use after erase is undefined; the concrete outcomes assume the usual contiguous vector) | `EventChains.EraseLoopAsWritten` | `EventChains.HandlerChain.RemoveHandler` |
| kaptivate/event_dispatcher.cpp:151 | `GetRawInputDeviceInfo(...) > 0`, on a `UINT` result | a name fetch that returns (UINT)-1, the function's error value, passes the guard, and the unfilled buffer is recorded as the device name | skip the entry, as for the other lookup failures | not executed; medium (needs the fetch to fail after the size query succeeded) | `EventDispatchers.SnapshotAsWritten` | `EventDispatchers.SnapshotCharacterized` |

## Left out

- Concurrency is not modelled. `EventQueue::start`/`stop`/`running`, the
  `stopped` flag, the signals and the critical sections are declared in
  `kaptivate/event_queue.hpp` but are not implemented or used.
- The shared data segment of the hook DLL is cross-process memory. It is
  modelled as plain fields.
- Win32 calls are inputs, not models. This covers `SetWindowsHookEx`,
  `SendMessageTimeout`, `GetLastError`, `GetRawInputDeviceList` and
  `GetRawInputDeviceInfo`.
- `CallNextHookEx` is recorded only as the hook handle it is given. Its own
  return value belongs to the next hook.
- `UnhookWindowsHookEx` results are ignored, as the source ignores them.
- `wParam`/`lParam` are only forwarded, so they are not parameters.
- `scanDevices`: only the successful enumeration is modelled. The failure
  branches at `kaptivate/event_dispatcher.cpp:97-113` are TODOs. The branch at
  lines 109-113 frees the list and then goes on using it.
- `scanDevices`: the conversion of the name buffer to `std::string` is not
  modelled. This includes stopping at the first NUL and the TCHAR width. The
  name is taken as the query reports it.
- Memory management is not modelled: `malloc`/`free`, `delete` of map
  entries, and the singleton's deallocation. Pointer identity is modelled by
  equality of the referenced value.
- `registerKeyboardHandler`, `resgisterMouseHandler`,
  `unregisterKeyboardHandler` and `unregisterMouseHandler` have empty bodies in
  this revision. They change nothing and are not members here.
- The handler/regex maps, event chains per device, `RexHandler` and the
  cleanup helpers are declared only. So is the capture lifecycle of
  `KaptivateAPI` (`startCapture` and the rest). None of these is invented.
- The `Decision` enum is kept as a datatype with its numeric codes. None of
  its users are implemented in these files.
- `Singleton.Statics.GetInstance`: with a non-throwing `new`, the source would
  also set `singleton` to NULL on failure. The model follows the standard
  throwing `new`, under which the assignment never happens.
- The DLL entry points and their mutex are not modelled. Neither is the
  sample console application.
