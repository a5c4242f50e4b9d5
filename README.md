# Mir buffer swapping, surface rules and driver quirks in Dafny

This project models three parts of the Mir display server and proves properties of them.

- **`BufferSwapperMulti`** (src/compositor/buffer_swapper_multi.cpp). It circulates a pool of two or three graphics buffers between a client, which renders into them, and the compositor, which shows them. Buffer ids travel through two queues:
  - the *client queue*, which holds buffers the client may render into. The client takes from its front, but when no frame is waiting the compositor takes its newest entry from the back;
  - the *compositor queue*, which holds finished frames.

  A counter, `in_use_by_client`, stops the client from taking the whole pool.
  - `swap_protocol.dfy` states each operation as a transition on a `SwapState` value. The state adds two ghost multisets: the ids currently held by the client and the ids held by the compositor.
  - `buffer_swapper.dfy` is the class whose methods update the queues and the counter in place. Each method is proved to perform exactly that transition.
- **`CanonicalSurfaceInfoCopy`** (examples/server_example_canonical_surface_info.cpp), in `surface_info.dfy`. It holds:
  - the six window-management classifiers over a surface's type or state;
  - `constrain_resize`, which adjusts a requested position and size to the surface's aspect ratios, minimum and maximum sizes, size increments and state.
- **`Quirks`** (src/platforms/gbm-kms/server/kms/quirks.cpp), in `driver_quirks.dfy`.
  - It parses the `driver-quirks` option entries `skip:devnode:V`, `skip:driver:V` and `disable-kms-probe:V` into three sets of names.
  - It decides whether a udev device is skipped and whether its modesetting support is probed.
  - The model includes the exact `std::string::find`/`substr` arithmetic, with the wrap-around of `size_t`.

`optional.dfy` holds the `Option` datatype. `arithmetic.dfy` holds a fact about multiplication and one about Euclidean division.

The model follows the code:
- `client_release` and `compositor_release` push the id they are given without checking who holds it (buffer_swapper_multi.cpp:74-79 and 108-112). The model makes holding the id a precondition rather than an error result.
- `client_release` wakes no waiter. The comment at buffer_swapper_multi.cpp:81-87 says the next `compositor_release` signals the condition variable anyway.
- `shutdown` only moves a frame to an empty client queue and calls `notify_all` (buffer_swapper_multi.cpp:119-126). Woken waiters get no distinct "shutting down" result.

## Model

| member | source | states |
|---|---|---|
| SwapProtocol.Init | src/compositor/buffer_swapper_multi.cpp:25-53 | The client queue holds the distinct ids in argument order. The compositor queue and both holders are empty and the counter is 0. The conservation invariant holds, and the pool has exactly as many ids as were given. |
| SwapProtocol.ClientAcquire | src/compositor/buffer_swapper_multi.cpp:55-72 | Allowed once the wait condition is false: the client queue is non-empty and the counter is not N-1. The client gets the front of its queue, an id of the pool, and the rest of the queue remains. The counter rises by one and the id joins the client's holdings. The compositor side is unchanged, the counter stays at most N-1, and conservation is preserved. |
| SwapProtocol.ClientRelease | src/compositor/buffer_swapper_multi.cpp:74-88 | A held id is appended to the back of the compositor queue, never returned to the client queue, and leaves the client's holdings. The counter drops by one, the client queue is unchanged, and conservation is preserved. |
| SwapProtocol.CompositorAcquire | src/compositor/buffer_swapper_multi.cpp:90-106 | It never waits. It takes the front of the compositor queue, the rest of that queue remains, and the client queue is unchanged. When the compositor queue is empty, it takes the back of the client queue and the rest of the client queue remains. The id joins the compositor's holdings. The counter and the client's holdings are unchanged, and conservation is preserved. |
| SwapProtocol.CompositorRelease | src/compositor/buffer_swapper_multi.cpp:108-113 | The id is appended to the back of the client queue and leaves the compositor's holdings. The compositor queue, the counter and the client's holdings are unchanged, and conservation is preserved. |
| SwapProtocol.Shutdown | src/compositor/buffer_swapper_multi.cpp:115-127 | Afterwards the client queue is non-empty. The state is unchanged when the queue was already non-empty. Otherwise the front of the compositor queue, and only it, moves: the client queue becomes that one id and the rest of the compositor queue remains. The counter and holders are untouched, and conservation is preserved. |
| SwapProtocol.PoolPartition | src/compositor/buffer_swapper_multi.cpp:55-113 | Under the invariant, every id of the pool sits in exactly one of the two queues or two holders, once. An id outside the pool is nowhere. |
| SwapProtocol.ClientNeverHoldsWholePool | src/compositor/buffer_swapper_multi.cpp:59-66 | In every state that satisfies the invariant, some buffer of the pool is not held by the client. |
| SwapProtocol.CompositorNeverBlocks | src/compositor/buffer_swapper_multi.cpp:90-127 | While the compositor holds nothing, one of the queues is non-empty. That is what the non-waiting `compositor_acquire` and `shutdown` rely on. |
| SwapProtocol.Cycle | src/compositor/buffer_swapper_multi.cpp:55-113 | One frame: client acquire, client release, compositor acquire, compositor release. It starts and ends in a quiet state, hands the client the front of its queue, and rotates that id to the back. |
| SwapProtocol.RoundRobin | src/compositor/buffer_swapper_multi.cpp:55-113 | From a quiet state, frame i hands the client the id at position i mod N of the initial client queue. |
| SwapProtocol.TwoBufferAlternation | src/compositor/buffer_swapper_multi.cpp:25-36 | With buffers A and B, repeated frames hand the client A, B, A, B, and so on. |
| SwapProtocol.TripleBufferFifo | src/compositor/buffer_swapper_multi.cpp:38-106 | With three buffers: the client takes A then B and releases both. The compositor then takes A, the older frame, and B stays queued for it. |
| BufferSwapper.BufferSwapperMulti.Double | src/compositor/buffer_swapper_multi.cpp:25-36 | The buffers map has the two ids. The state is the initial state of the protocol, and the invariant holds. |
| BufferSwapper.BufferSwapperMulti.Triple | src/compositor/buffer_swapper_multi.cpp:38-53 | The buffers map has the three ids. The state is the initial state of the protocol, and the invariant holds. |
| BufferSwapper.BufferSwapperMulti.ClientAcquire | src/compositor/buffer_swapper_multi.cpp:55-72 | Updates the fields exactly as `SwapProtocol.ClientAcquire` does and returns the buffer stored for the id. The map is unchanged. |
| BufferSwapper.BufferSwapperMulti.ClientRelease | src/compositor/buffer_swapper_multi.cpp:74-88 | Updates the fields exactly as `SwapProtocol.ClientRelease` does. The invariant holds. |
| BufferSwapper.BufferSwapperMulti.CompositorAcquire | src/compositor/buffer_swapper_multi.cpp:90-106 | Updates the fields exactly as `SwapProtocol.CompositorAcquire` does and returns the buffer stored for the id. |
| BufferSwapper.BufferSwapperMulti.CompositorRelease | src/compositor/buffer_swapper_multi.cpp:108-113 | Updates the fields exactly as `SwapProtocol.CompositorRelease` does. The invariant holds. |
| BufferSwapper.BufferSwapperMulti.Shutdown | src/compositor/buffer_swapper_multi.cpp:115-127 | Updates the fields exactly as `SwapProtocol.Shutdown` does. The client queue is non-empty afterwards and the counter is unchanged. |
| CanonicalSurfaceInfo.CanBeActive | examples/server_example_canonical_surface_info.cpp:52-71 | True exactly for normal, utility, dialog, satellite, freestyle, menu and inputmethod. Every type that must not have a parent can be active. |
| CanonicalSurfaceInfo.MustHaveParent | examples/server_example_canonical_surface_info.cpp:73-86 | True exactly for overlay, inputmethod, satellite and tip. Never true together with `MustNotHaveParent`. |
| CanonicalSurfaceInfo.CanMorphTo | examples/server_example_canonical_surface_info.cpp:88-128 | False for any target other than normal, utility, satellite or dialog. A popover may morph to dialog and nothing else. Both types of a permitted morph can be active. |
| CanonicalSurfaceInfo.MorphReversible | examples/server_example_canonical_surface_info.cpp:88-128 | Every permitted morph can be undone, except popover to dialog. |
| CanonicalSurfaceInfo.MustNotHaveParent | examples/server_example_canonical_surface_info.cpp:130-141 | True exactly for normal and utility. |
| CanonicalSurfaceInfo.IsVisible | examples/server_example_canonical_surface_info.cpp:143-154 | False exactly for hidden and minimized. |
| CanonicalSurfaceInfo.NeedsTitlebar | examples/server_example_canonical_surface_info.cpp:326-340 | False exactly for freestyle, menu, inputmethod, gloss and tip. A type that gets a titlebar can be active. Top-level types always get one. |
| CanonicalSurfaceInfo.FromCreationParameters | examples/server_example_canonical_surface_info.cpp:32-50 | Type, state and restore rectangle come from the surface. A set bound is kept. An unset minimum is 0 and an unset maximum is INT_MAX, each independently of the other bound. With neither bound of a dimension set, every size from 0 to INT_MAX is admitted. |
| CanonicalSurfaceInfo.CeilDiv | examples/server_example_canonical_surface_info.cpp:216-242 | `(n + d - 1) / d` on positive numbers is the ceiling of n/d: the least q with q*d >= n. |
| CanonicalSurfaceInfo.MinAspectCorrection | examples/server_example_canonical_surface_info.cpp:209-230 | Afterwards width*ar.height >= height*ar.width. The size is unchanged exactly when it already satisfies that. Only one dimension changes: the width grows or the height shrinks, by the least amount that satisfies the ratio. |
| CanonicalSurfaceInfo.MaxAspectCorrection | examples/server_example_canonical_surface_info.cpp:232-253 | Afterwards width*ar.height <= height*ar.width. The size is unchanged exactly when it already satisfies that. Only one dimension changes: the width shrinks or the height grows, by the least amount that satisfies the ratio. |
| CanonicalSurfaceInfo.TruncDiv | examples/server_example_canonical_surface_info.cpp:267-281 | C++ `/` on a positive divisor: the quotient truncates toward zero, so the remainder lies in [0, b) for a non-negative dividend and in (-b, 0] for a negative one. |
| CanonicalSurfaceInfo.TruncRem | examples/server_example_canonical_surface_info.cpp:267-281 | C++ `%` on a positive divisor: `a == b*(a/b) + a%b`, the remainder has the dividend's sign and is below b in magnitude, it equals Dafny's `%` for a non-negative dividend, and it is zero exactly when Dafny's is. |
| CanonicalSurfaceInfo.SnapToIncrement | examples/server_example_canonical_surface_info.cpp:267-281 | From at or above the minimum, the result is on the grid `min + k*inc`, not below the minimum, and the nearest grid point, with halves rounding up. A value already on the grid is unchanged. |
| CanonicalSurfaceInfo.AnchorAsWritten | examples/server_example_canonical_surface_info.cpp:283-287 | As written, a left (top) resize moves the right (bottom) edge by twice the change in width (height). Without a resize on that side, x (y) is kept. An unchanged size keeps the position. |
| CanonicalSurfaceInfo.AnchorAsWrittenMovesRightEdge | examples/server_example_canonical_surface_info.cpp:283-284 | A concrete left-edge drag whose right edge moves from 300 to 200 under the as-written step. |
| CanonicalSurfaceInfo.Anchor | examples/server_example_canonical_surface_info.cpp:283-287 | The corrected step: a left (top) resize keeps the right (bottom) edge where the request put it. Otherwise x (y) is kept. An unchanged size keeps the position. |
| CanonicalSurfaceInfo.Clamp | examples/server_example_canonical_surface_info.cpp:255-265 | The clamp of one dimension: raised to the minimum, then lowered to the maximum. With min <= max the result is in [min, max], is the value itself when it already lies there, and is otherwise the bound it crossed. With crossed bounds the maximum wins. |
| CanonicalSurfaceInfo.ConstrainedDimension | examples/server_example_canonical_surface_info.cpp:255-281 | One dimension after the clamp and the increment step, for min <= max. Without an increment it is exactly the clamped value. With one, it is on the grid above the minimum and the nearest grid point to the clamped value, within half an increment. A value at or below the minimum gives the minimum, and a value within bounds and on the grid is kept. |
| CanonicalSurfaceInfo.AspectCorrected | examples/server_example_canonical_surface_info.cpp:209-253 | The minimum-ratio correction followed by the maximum-ratio one. The result satisfies the maximum ratio, and the minimum one when no maximum is set. A size meeting both ratios is unchanged. |
| CanonicalSurfaceInfo.SquareMinAspectExample | examples/server_example_canonical_surface_info.cpp:209-265 | A 10 by 20 request under a 1:1 minimum aspect and default bounds becomes 10 by 10. |
| CanonicalSurfaceInfo.ConstrainSize | examples/server_example_canonical_surface_info.cpp:206-281 | The new size is `ConstrainedDimension` of the aspect-corrected request in each dimension, so the aspect steps, the exact clamp and the nearest-grid rounding all determine it. When min <= max, each dimension ends in [min, max], or on the increment grid at most half an increment past the maximum. A size meeting every constraint is returned unchanged. |
| CanonicalSurfaceInfo.ClampSize | examples/server_example_canonical_surface_info.cpp:255-265 | The four clamps give `Clamp` of each dimension. |
| CanonicalSurfaceInfo.SnapSize | examples/server_example_canonical_surface_info.cpp:267-281 | Each dimension with an increment is snapped by `SnapToIncrement` from its minimum; one without is kept. |
| CanonicalSurfaceInfo.ApplyState | examples/server_example_canonical_surface_info.cpp:291-320 | Maximized and every unlisted state give the surface's own position and size. Vertmaximized fixes y and height; horizmaximized fixes x and width. A dimension the state leaves free keeps the given position and extent. |
| CanonicalSurfaceInfo.ConstrainResize | examples/server_example_canonical_surface_info.cpp:198-324 | As the source writes it. Maximized and every unlisted state give the surface's own position and size. Vertmaximized fixes y and height; horizmaximized fixes x and width. In the dimensions the state leaves free, the size is `ConstrainedDimension` of the aspect-corrected request, so the bounds and increment grid hold. Without a resize on that side, x (y) is the requested one. On a left (top) resize, the opposite edge moves by twice the change in size. A restored surface asking for a size that meets every constraint gets its request unchanged. |
| CanonicalSurfaceInfo.ConstrainResizeIntended | examples/server_example_canonical_surface_info.cpp:198-324 | The same operation with the corrected anchoring step. The same state overrides, free-dimension sizes, bounds, grid and unchanged-request guarantee hold, and on a left (top) resize the edge opposite the dragged one stays where the request put it. |
| DriverQuirks.Substr | src/platforms/gbm-kms/server/kms/quirks.cpp:67-68 | `substr(pos, count)` gives the characters from pos on, at most count of them, and fewer only when the string ends first. |
| DriverQuirks.Find | src/platforms/gbm-kms/server/kms/quirks.cpp:66 | `find(c, pos)` gives the first index at or after pos holding c, or npos when there is none. |
| DriverQuirks.SkipTypeOf | src/platforms/gbm-kms/server/kms/quirks.cpp:66-67 | The type of a `skip:` entry: the text between `skip:` and the next colon. Without a colon it is the rest of the entry. It never holds a colon. |
| DriverQuirks.SkipValueOf | src/platforms/gbm-kms/server/kms/quirks.cpp:66-68 | The value of a `skip:` entry: everything after that colon. Without a colon, `npos + 1` wraps to 0 and the value is the whole entry. |
| DriverQuirks.ParseQuirk | src/platforms/gbm-kms/server/kms/quirks.cpp:63-93 | An entry asks to skip a device node (driver) exactly when it starts with `skip:` and its type is `devnode` (`driver`); the name is the `skip:` value. It disables the probe exactly when it does not start with `skip:` but starts with `disable-kms-probe:`, for the driver named by the rest of the entry. Anything else is ignored. |
| DriverQuirks.ParseSkipDevnode | src/platforms/gbm-kms/server/kms/quirks.cpp:63-73 | `skip:devnode:V` asks to skip device node V, where V is everything after the second colon. |
| DriverQuirks.ParseSkipDriver | src/platforms/gbm-kms/server/kms/quirks.cpp:63-78 | `skip:driver:V` asks to skip devices driven by V. |
| DriverQuirks.ParseDisableKmsProbe | src/platforms/gbm-kms/server/kms/quirks.cpp:80-85 | `disable-kms-probe:V` asks to skip the modesetting probe for driver V. |
| DriverQuirks.ParseBareSkipDevnode | src/platforms/gbm-kms/server/kms/quirks.cpp:63-73 | `skip:devnode` with no second colon skips a device node named `skip:devnode`. |
| DriverQuirks.ParseBareSkipDriver | src/platforms/gbm-kms/server/kms/quirks.cpp:63-78 | `skip:driver` with no second colon skips a driver named `skip:driver`. |
| DriverQuirks.ParseSkipDevnodeExactly | src/platforms/gbm-kms/server/kms/quirks.cpp:59-93 | An entry skips device node V if and only if it is `skip:devnode:V`, or V is `skip:devnode` and so is the entry. |
| DriverQuirks.ParseSkipDriverExactly | src/platforms/gbm-kms/server/kms/quirks.cpp:59-93 | An entry skips driver V if and only if it is `skip:driver:V`, or V is `skip:driver` and so is the entry. |
| DriverQuirks.ParseDisableKmsProbeExactly | src/platforms/gbm-kms/server/kms/quirks.cpp:59-93 | An entry disables the probe for V if and only if it is `disable-kms-probe:V`. |
| DriverQuirks.Apply | src/platforms/gbm-kms/server/kms/quirks.cpp:69-93 | Each kind of entry adds its name to its own set only. An unrecognised entry changes nothing. |
| DriverQuirks.ConfiguredAppend | src/platforms/gbm-kms/server/kms/quirks.cpp:59-93 | One more entry changes only the set of its kind, by adding its name. An unrecognised entry, including `skip:` with an unknown type, leaves all three sets unchanged. |
| DriverQuirks.ConfiguredDrivers | src/platforms/gbm-kms/server/kms/quirks.cpp:59-154 | A driver is skipped exactly when it is nvidia or evdi, or some entry parses to skipping it. |
| DriverQuirks.ConfiguredDevnodes | src/platforms/gbm-kms/server/kms/quirks.cpp:59-154 | A device node is skipped exactly when some entry parses to skipping it. |
| DriverQuirks.ConfiguredModesetting | src/platforms/gbm-kms/server/kms/quirks.cpp:59-154 | The probe is skipped for a driver exactly when it is virtio_gpu, or some entry parses to skipping it. |
| DriverQuirks.ConfiguredIgnoresOrder | src/platforms/gbm-kms/server/kms/quirks.cpp:59-93 | Two option values with the same entries configure the same sets, whatever the order or repetition, so multiple quirks combine. |
| DriverQuirks.Configured | src/platforms/gbm-kms/server/kms/quirks.cpp:52-154 | With no entries the sets are the defaults (drivers nvidia and evdi skipped, probe skipped for virtio_gpu, no device node). No option value removes a default: every configured set contains its default set. |
| DriverQuirks.ValueOr | src/platforms/gbm-kms/server/kms/quirks.cpp:36-46 | A non-null string is returned as is. A null one gives the fallback. |
| DriverQuirks.DevnodeName | src/platforms/gbm-kms/server/kms/quirks.cpp:98 | A device's node, or "" when it has none. |
| DriverQuirks.DriverName | src/platforms/gbm-kms/server/kms/quirks.cpp:99-109 | The parent's driver. "" for a parent without a driver, and `<UNKNOWN>` for a device without a parent. |
| DriverQuirks.Quirks.constructor | src/platforms/gbm-kms/server/kms/quirks.cpp:52-154 | With the option unset, the fields hold the defaults. Otherwise the loop applies every entry in turn. Either way the three fields equal the sets the entries configure. |
| DriverQuirks.Quirks.ShouldSkip | src/platforms/gbm-kms/server/kms/quirks.cpp:96-122 | True exactly when the device's driver or its device node is in the configured skip sets. |
| DriverQuirks.Quirks.DriverNeedsModesettingProbe | src/platforms/gbm-kms/server/kms/quirks.cpp:124-146 | True exactly when the device's driver is not in the configured probe-skip set. |
| DriverQuirks.Quirks.RequireModesettingSupport | src/platforms/gbm-kms/server/kms/quirks.cpp:177-193 | False when either `MIR_MESA_KMS_DISABLE_MODESET_PROBE` or `MIR_GBM_KMS_DISABLE_MODESET_PROBE` is set. Otherwise true exactly when the driver is not in the probe-skip set. |

## Left out

- The swapper's mutex and condition variable are not modelled: waiting, `notify_one`, `notify_all`, and any thread interleaving. Each call is one atomic transition. The wait loop of `client_acquire` becomes its precondition `ClientMayAcquire`, so blocking and liveness under a real scheduler are not captured.
- BufferSwapper.BufferSwapperMulti.CompositorAcquire: requires a non-empty queue. The source reads the back of an empty `std::deque` in that case, which is undefined behaviour. `SwapProtocol.CompositorNeverBlocks` shows that the case cannot arise while the compositor holds nothing.
- BufferSwapper.BufferSwapperMulti.Shutdown: requires a non-empty queue, for the same reason on the compositor queue's front. Waking the waiters is not modelled.
- BufferSwapper.BufferSwapperMulti.ClientRelease: requires that the client holds the id. The source checks nothing, and a foreign id would corrupt its counter. The same holds for `CompositorRelease`.
- BufferSwapper.BufferSwapperMulti.Double: requires distinct ids. With equal ids the source's map would hold fewer buffers than the queue, which `Triple` likewise excludes.
- Buffers are an opaque type parameter in an id-to-buffer map. Shared and weak pointers and pixel contents are not modelled.
- CanonicalSurfaceInfo.ConstrainResize: requires positive aspect-ratio components and positive increments. A zero would be a division by zero in the source. `ConstrainResizeIntended`, `ConstrainSize` and `MeetsConstraints` require the same. Negative increments are not modelled.
- CanonicalSurfaceInfo.SnapToIncrement: below the minimum, a value can only be reached when the maximum is below the minimum. For such a value the C++ truncating division is modelled, but the contract does not characterise the rounding.
- CanonicalSurfaceInfo.ConstrainedDimension: with crossed bounds (maximum below minimum) the result is the snapped maximum, and the contract does not characterise that rounding, for the reason given for `SnapToIncrement`.
- CanonicalSurfaceInfo.AspectCorrected: with both ratios set, the maximum-ratio step may undo the minimum ratio, as in the source, so only the maximum ratio is promised then.
- CanonicalSurfaceInfo.ConstrainSize: integers are unbounded. The source multiplies `int` sizes into `long`, and its `INT_MAX` default maximum could overflow in `int` additions; those overflows are not modelled.
- The unused `bounds` argument of `constrain_resize` and its "constrain onscreen" placeholder have no behaviour to model.
- `session` and `parent` of the surface record, `PaintingImpl`, `init_titlebar` and `paint_titlebar` are not modelled. They hold pointers, an atomic buffer pointer and pixel writes.
- The header defining `MirSurfaceType` is not part of this model. Mir declares `mir_surface_type_overlay` and `mir_surface_type_popover` as deprecated aliases of `mir_surface_type_gloss` and `mir_surface_type_menu`, and the model uses `Overlay == Gloss` and `Popover == Menu` accordingly.
- Quirks: `getenv` is replaced by the two booleans of `Environment`. The udev device is reduced to its optional devnode and an optional parent with an optional driver. The option store is an optional sequence of entries. Logging and `add_quirks_option` are not modelled.
- `std::string::substr` throws when its start is past the end. No call in the parser reaches that case, so the model requires a start within the string.
- Strings are sequences of characters, with no encoding. `std::unordered_set` is a mathematical set.

## Findings

| source | as written | input that shows it | evidently intended | confidence | as-written member | corrected member |
|---|---|---|---|---|---|---|
| examples/server_example_canonical_surface_info.cpp:283-287 | On a left (top) resize, x (y) is moved by `new_size - requested_size`, so the opposite edge moves by twice the size change. | A left-edge drag to x=100 with width 200 puts the right edge at 300. With a maximum width of 150 in the restored state, the result is x=50, width 150, so the right edge is at 200. | x moves by `requested_size - new_size`, which keeps the right (bottom) edge where the request put it. | medium, not executed | CanonicalSurfaceInfo.ConstrainResize, CanonicalSurfaceInfo.AnchorAsWrittenMovesRightEdge | CanonicalSurfaceInfo.ConstrainResizeIntended |
