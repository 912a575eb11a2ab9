# Verified model of a Triton C++ runtime

This project models the hard core of a C++ runtime that launches Triton kernels, and proves what its
parts promise, alone and together:

- **The tuned-configuration table**: a two-layer hash index with lock-free readers, copy-on-write
  snapshots, and a single-flight protocol that asks a resolver for missing entries. The index is a
  class checked against a plain list of rows, for every hash function. `find`, `resolve` and
  `insert_resolved` are also a step machine over any number of threads, in which every access to
  shared state is a step of its own; the theorems hold for every interleaving.
- **The signature path**: the emitter that packs arguments and prints a textual signature, the Python
  and the C++ reader of that text, and the NPU launcher that copies the packed bytes once more. The
  theorems say when these components agree, and name the arguments on which they do not.
- **Caches and hooks**: the compiled-kernel cache with its length-prefixed key, the launch hooks with
  their compare-and-swap loop, and the double-checked module load.
- **Tiled kernels**: grouped-tile matmul, one-tile and online softmax, and blocked max and argmax,
  each against the plain mathematical definition.

Code that updates objects, buffers and arrays is written as classes and methods with loops; pure code
as functions; concurrent code as a state machine with one action per atomic access.

## How the modules fit together

`Arithmetic`, `Numerals` and `PowersOfTwo` are the small foundations. `KeySchema`, `TunedIndex` and
`TunedTable` are the table as one thread sees it; `Identity` holds its name strings; `TunedProtocol`
(steps and single flight), `TunedAgreement` (the invariant), `TunedRuns`, `TunedFlights` and
`TunedOutcomes` (theorems over runs) and `TunedWitnesses` (runs that show where they end) are the table
under concurrency. `Signature`, `JitToken`, `PackedLayout`,
`ParameterBuffer`, `ArgEmitter`, `SignatureCompiler`, `AbiAgreement` and `NpuTransport` follow an
argument from the caller to the device. `KernelCache`, `KernelProtocol`, `LaunchHooks` and `LazyLoad`
are the caches and hooks. `TileSchedule`, `Matmul`, `Softmax`, `Reduce` and `ReduceDim` are the
kernels. Each file opens with the source lines it covers.

## Where the code falls short of what one would like

These are proved as exact conditions or concrete inputs, with the code modelled as it is:

- Pending requests are keyed by a text, and different requests can have the same one. For dtype names
  (no comma, no decimal integer) two tokens are equal exactly for equal requests, or when one request
  spells out the other's `@` and device at the end of a dtype (`Identity.FlightTokenCollision`); a list
  of dtypes is safe exactly if none of them ends in `@` and a number (`Identity.SafeDtypes`). Without the
  conditions on dtype names, dimensions and dtypes run into each other (`Identity.FlightTokenLooseDtypes`).
- A request whose token text collides returns a configuration that was resolved for another key, and that
  no table answers its own key with (`TunedWitnesses.CollisionMisleads`). All answers agree when requests
  are apart (`TunedRuns.AllAnswersAgree`), which `TunedRuns.ScopedRequestsApart` and
  `TunedRuns.SafeRequestsApart` discharge.
- A direct look-up returns what the table answered at a moment of its own call
  (`TunedOutcomes.DirectOutcome`); a waiter returns what it answered to the owner, which a load may have
  outdated before the waiter's call began (`TunedWitnesses.LoadOutrunsWaiter`). Without a load the table still
  answers it (`TunedRuns.AllAnswersAgree`).
- While a kernel has no schema, tokens hold raw dimensions, and two keys that normalise alike can be in the
  resolver at the same time (`TunedWitnesses.AskedTwice`, `TunedWitnesses.AlikeButApart`).
- Two scoped kernel ids coincide exactly when an unscoped kernel name spells out a scoped id
  (`Identity.ScopedKernelIdCollision`); identifiers never do.
- String arguments: emitter and compiler understand each other on a call exactly when every string is a
  well-formed token that is passed to a constexpr parameter or calls itself a constant, none spoils the
  form of a callee token, and callees have UTF-8 names (`AbiAgreement.CallAgrees`).
- The two signature splitters agree on a text exactly when no token of the C++ one begins or ends with
  anything Python trims (`Signature.ReadersAgreeIff`).
- On NPU, constexpr infinities and NaNs, string constexprs and runtime bools are read back as int64
  arguments that were never packed, or with the wrong width (`NpuTransport.SlotFits` is the exact
  condition, `NpuTransport.InfinityIsMisread` an example).
- `load` refuses a kernel for more than duplicate keys: rows under more than 32 columns, and dtypes
  with an embedded NUL, fail its self-lookup too (`TunedTable.LoadKernel`).
- Softmax yields numbers exactly for rows with a finite input and no `+inf` (`Softmax.DefinedIff`).
- The Python `argmax` wrapper caps its grid at 4096 programs, and the kernel has no loop over blocks:
  exactly the outputs of the first 4096 blocks of rows are computed (`ReduceDim.ArgMaxWrapper`), which is
  all of them exactly when there are no more blocks (`ReduceDim.WrapperCovers`).

## Model

| member | source | states |
|---|---|---|
| `Numerals.ShowIntInjective` | src/tuned_config.cpp:839-852 | Decimal printing of integers loses nothing: equal texts, equal numbers. |
| `Numerals.ReadShowInt` | include/triton_jit/triton_jit_function.h:315-318 | A printed number is a decimal numeral, and reading it digit by digit gives the number back. |
| `Numerals.FieldSplits` | include/triton_jit/jit_utils.h:76-80 | A length-prefixed field can be read off the front of any text, whatever bytes field and text hold. |
| `KeySchema.Pow2CeilIsLeast` | src/tuned_config.cpp:75-85 | From 1 to 2^62, the bit-counting power-of-two ceiling is the least power of two that is not below its argument. |
| `KeySchema.NormalizeDimIs` | src/tuned_config.cpp:317-338 | What each strategy does, exactly: default leaves the value; log leaves what is not positive and gives the least power of two up to 2^62; align32 leaves what is not positive, gives the least power of two below 32 and the least multiple of 32 from there on; align32_ceil gives the least multiple of 32 for every value, negative ones included. |
| `KeySchema.NormalizeIs` | src/tuned_config.cpp:317-338 | A key is normalised column by column, each with its own strategy. |
| `KeySchema.NormalizeIdempotent` | src/tuned_config.cpp:317-338 | Normalising a dimension twice changes nothing, for all four strategies and every value; the loader's self-lookup rests on this. |
| `KeySchema.NormalizeFitsInt64` | src/tuned_config.cpp:317-338 | Normalising stays inside int64 unless the value is within 31 of its upper end (or is its minimum). |
| `KeySchema.NormalizeCovers` | src/tuned_config.cpp:317-338 | A normalised dimension is never below the raw one, and the align strategies add less than 32 from 32 on. |
| `TunedIndex.NewestMatch` | src/tuned_config.cpp:481-518 | The reference look-up: the result matches and no newer row does, or nothing matches. |
| `TunedIndex.Walk` | src/tuned_config.cpp:481-505 | Following one bucket's chain ends and finds what a scan over all rows from newest to oldest finds, for every hash function. |
| `TunedIndex.KernelTable.BuildIndex` | src/tuned_config.cpp:461-479 | Rebuilding buckets and links in place chains every row into its bucket, newest first, and changes no key and no configuration. |
| `TunedIndex.OnlineStorage.Append` | src/tuned_config.cpp:892-901 | Linking a node extends the owned rows by exactly that row and keeps every chain intact. |
| `TunedIndex.KernelTable.Find` | src/tuned_config.cpp:481-518 | The two-layer hashed find answers what the plain map answers: online before offline, newest first, nothing for views of another width, with missing arrays, or beyond 32 columns. |
| `TunedTable.SelfLookup` | src/tuned_config.cpp:699-717 | A row finds itself exactly if its dtypes hold no NUL and no later row has the same key. |
| `TunedTable.FillTable` | src/tuned_config.cpp:641-698 | The entries loop followed by the index build leaves a sound table of exactly the normalised rows, in order. |
| `TunedTable.SelfCheck` | src/tuned_config.cpp:699-717 | The loop that looks every stored row up again accepts exactly the tables with distinct printable keys and at most 32 columns (or no rows). |
| `TunedTable.LoadKernel` | src/tuned_config.cpp:641-717 | Loading a kernel accepts exactly when the rows' keys are pairwise distinct after normalisation (with at most 32 columns and no NUL in a dtype), and then holds exactly the normalised rows. |
| `TunedTable.LoadedAnswers` | src/tuned_config.cpp:641-717 | A loaded kernel answers every shape that normalises like one of its rows with that row's configuration, and nothing else. |
| `TunedTable.AppendAnswers` | src/tuned_config.cpp:892-911 | One more online row answers exactly the views that normalise to its key; every other view keeps its answer. |
| `TunedTable.WithRowAnswers` | src/tuned_config.cpp:892-911 | The same over all kernels: a row added to one kernel changes the answers of one key of that kernel only. |
| `TunedTable.TunedTable.PublishLocked` | src/tuned_config.cpp:746-759 | Publishing replaces one kernel in a copy of the snapshot, leaves every other kernel as it was, and retires the snapshot to the history. |
| `TunedTable.TunedTable.Find` | src/tuned_config.cpp:789-804 | A look-up through the snapshot answers what the abstract contents answer. |
| `TunedTable.TunedTable.Publish` | src/tuned_config.cpp:723-744 | Publishing a loaded kernel starts a new generation of it with no online rows. |
| `TunedTable.TunedTable.NextLayer` | src/tuned_config.cpp:868-893 | The table to publish shares the current online storage or gets a fresh one over the current offline rows; an offline layer never has its own. |
| `TunedTable.TunedTable.AppendRow` | src/tuned_config.cpp:894-909 | Linking the node changes the tables of this kernel only, and the new table counts it. |
| `TunedTable.TunedTable.InsertResolved` | src/tuned_config.cpp:856-912 | Either one of the three errors, exactly when its condition holds, and no change; or the configuration already answered; or one new row, after which find answers it for exactly the keys that normalise alike and everything else as before. Of several errors it is the first. The entry count stays the number of rows. |
| `Identity.ScopedKernelIdCollision` | src/tuned_config.cpp:455-459 | Two scoped ids are equal exactly when kernel and namespace are, or one is an unscoped name that spells out the other. |
| `Identity.ScopedKernelIdInjective` | src/tuned_config.cpp:455-459 | For identifier names, scoped ids separate (kernel, namespace) pairs. |
| `Identity.FlightTokenInjective` | src/tuned_config.cpp:839-852 | With scoped storage ids, equal tokens mean equal kernel, namespace, device, dimensions and dtypes, for dtypes without commas that are no integers. |
| `Identity.FlightTokenInjectiveAnyId` | src/tuned_config.cpp:839-852 | With arbitrary storage ids, tokens separate requests whose dtype names do not end in `@` and a number. |
| `Identity.FlightTokenCollision` | src/tuned_config.cpp:839-852 | For dtype names, two requests with arbitrary storage ids have one token exactly when they are the same request or one of them spells out the other's `@`, device and rest. |
| `Identity.SafeDtypes` | src/tuned_config.cpp:839-852 | A list of dtype names collides with some request of fewer dtypes exactly if one of them ends in `@` and a decimal number. |
| `Identity.FlightTokenExample` | src/tuned_config.cpp:839-852 | A concrete pair of requests for different devices with one token. |
| `Identity.FlightTokenLooseDtypes` | src/tuned_config.cpp:839-852 | Concrete pairs with one token for dtypes that are integers or hold commas. |
| `TunedProtocol.FlightsKept` | src/tuned_config.cpp:951-999 | Every step keeps single flight: a token text is pending exactly while one thread owns it, and every open promise has one thread that will close it. |
| `TunedProtocol.CalmKept` | src/tuned_config.cpp:856-911 | Every step keeps load_mu_ with one thread that is between taking and giving it back, and every running call with the thread that made it. |
| `TunedProtocol.LookupAnswers` | src/tuned_config.cpp:481-518 | The pointer that a look-up returns leads to the configuration that the single-threaded tables answer. |
| `TunedAgreement.InvKept` | src/tuned_config.cpp:856-1000 | Every step of every thread keeps the whole invariant: flights, load_mu_ and its holder, calls, storages without repeated keys, handles and retired tables. |
| `TunedAgreement.HandleStep` | src/tuned_config.cpp:746-759 | In any step, a table handle's answer for a key stays, or goes from a miss to the very answer the published map gives at that moment. |
| `TunedRuns.RunInv` | src/tuned_config.cpp:856-1000 | The invariant holds in every state of every run. |
| `TunedRuns.ReadLinearises` | src/tuned_config.cpp:789-804 | A lock-free read that takes the snapshot first and walks the chain later, with anything in between, returns what the abstract map held at some moment of its call. |
| `TunedRuns.HandleIsStable` | src/tuned_config.cpp:481-518 | Over any run, an answered key keeps its answer on an old handle for ever. |
| `TunedRuns.AllAnswersAgree` | src/tuned_config.cpp:923-1000 | Without a load of the kernel, and with no two requests sharing a token text by accident, all pointers that any interleaving of find and resolve returns for keys that normalise alike lead to the same entry, and the table still answers it. |
| `TunedRuns.ScopedRequestsApart` | src/tuned_config.cpp:839-852 | Requests whose storage ids are scoped kernel ids share a token text only if they are for the same key. |
| `TunedRuns.SafeRequestsApart` | src/tuned_config.cpp:839-852 | So do requests with any storage ids, if no dtype ends in `@` and a number. |
| `TunedRuns.KeysInstalledOnce` | src/tuned_config.cpp:856-912 | In every state of every run no table repeats a key, over its online and offline rows together: at most one answer is ever installed for a key. |
| `TunedRuns.EntryStays` | src/tuned_config.cpp:741-759 | The entry at a returned address, owned by a table of the history, stays there unchanged in every step. |
| `TunedRuns.ReturnedStaysKept` | src/tuned_config.cpp:741-759 | Every pointer returned at any moment of a run leads to its configuration in a table of the history, at that very address, then and ever after. |
| `TunedOutcomes.DirectOutcome` | src/tuned_config.cpp:923-950 | In every run, a find, or a resolve that never waited, returns the pointer or the miss that the published table answered its key with at some moment of its call, a miss only without a resolver; or it throws for a malformed key, or after missing because it was frozen, or because the key does not fit the bound schema. |
| `TunedOutcomes.SharedOutcome` | src/tuned_config.cpp:951-999 | What a call returns through a promise, made for its own token text, has its cause in the owner: a pointer that the table answered the owner's key with while it was responsible; a miss only if its resolver declined; an exception that the resolver threw; or the refusal of an answer of the wrong width, namespace or schema. |
| `TunedOutcomes.OnlyAdmittedResolve` | src/tuned_config.cpp:932-941 | Nobody asks, waits or stores without having missed first, with a resolver and unfrozen. |
| `TunedOutcomes.WarmReturns` | src/tuned_config.cpp:932-932 | A call whose own snapshot answers its key returns exactly that entry, whatever happens beside it and whether or not resolving is frozen. |
| `TunedOutcomes.MalformedIsRefused` | src/tuned_config.cpp:925-928 | resolve throws for its argument exactly when that is too wide, lacks an array, or holds a null dtype. |
| `TunedOutcomes.RowsComeFromAnswers` | src/tuned_config.cpp:894-911 | Every online row of every run is the configuration of a resolver's answer, under the normalised key of the request it answered, in a storage of that kernel. |
| `TunedOutcomes.PublishAddsOne` | src/tuned_config.cpp:892-911 | Publishing an insertion makes the table answer exactly the views of the new key with the new entry; every other view of every kernel keeps its answer. |
| `TunedOutcomes.LoadReplaces` | src/tuned_config.cpp:719-759 | A load makes its kernel answer from the loaded rows alone; other kernels keep their answers. |
| `TunedOutcomes.NobodyIsStuck` | src/tuned_config.cpp:923-1000 | In every reachable state a running call can make its next step, frozen or not and whatever the resolver replies, unless it waits for an open promise or for load_mu_. |
| `TunedFlights.SingleFlight` | src/tuned_config.cpp:951-999 | In every state of every run: a token text is pending exactly while one thread owns it, a waiter's promise is closed or has a thread that will close it, and everyone who returns through one promise returns the same outcome. |
| `TunedFlights.FailureCachesNothing` | src/tuned_config.cpp:973-999 | A resolver that declines or throws, and a refused insertion, change no table and leave load_mu_ free; the erase that follows frees the token. |
| `TunedFlights.ResolverAskedOnce` | src/tuned_config.cpp:923-1000 | Without a load of the kernel, bound or not, the resolver is called for a token only after every earlier call for that token declined or failed. |
| `TunedFlights.AskedOncePerKey` | src/tuned_config.cpp:942-951 | If the schema was bound before the first call, the same holds per normalised key. |
| `TunedWitnesses.Asks` | src/tuned_config.cpp:923-985 | A cold request that finds its token text free has a run into the resolver. |
| `TunedWitnesses.AskedTwice` | src/tuned_config.cpp:942-951 | Without a schema, two requests with different raw tokens have a run that has both in the resolver at once. |
| `TunedWitnesses.AlikeButApart` | src/tuned_config.cpp:942-951 | Dimensions 5 and 6 normalise alike under the log strategy and have different raw tokens. |
| `TunedWitnesses.CollisionMisleads` | src/tuned_config.cpp:951-985 | Requests for different keys with one token text have a run in which one returns the other's configuration while no table answers its key. |
| `TunedWitnesses.LoadOutrunsWaiter` | src/tuned_config.cpp:951-999 | While an owner has its pointer and not yet erased its token, a load can empty the kernel, and a call that begins after it returns the old pointer although the table answers its key at no moment of the call. |
| `TunedFlights.PromiseGetsClosed` | src/tuned_config.cpp:951-999 | From every reachable state, whatever the resolver replies, the responsible thread and the lock's holder have a run of their own steps that closes the promise. |
| `TunedFlights.ProgressIsBounded` | src/tuned_config.cpp:951-999 | In every run in which a promise stays open, its owner and the holders of load_mu_ make boundedly many steps: what remained for the owner, plus two for every time another thread got the lock first. |
| `TunedFlights.WaiterReleased` | src/tuned_config.cpp:966-969 | A waiter whose promise is closed can return at once, with what the promise holds. |
| `KernelCache.MakeKernelCacheKey` | include/triton_jit/jit_utils.h:60-106 | The key is refused exactly for reserved option names, and otherwise is the tagged, length-prefixed fields in order. |
| `KernelCache.ValidateCompileOptions` | include/triton_jit/jit_utils.h:67-74 | Options are refused exactly if an extra bears a reserved name. |
| `KernelCache.KeyInjective` | include/triton_jit/jit_utils.h:76-106 | The key decodes uniquely: equal keys come from equal signature, device, warps, stages and extras, whatever bytes these hold. |
| `KernelProtocol.StepKeeps` | src/triton_jit_function.cpp:95-155 | Every step keeps every entry filed under the key it was compiled for, every compilation in one place, and every answer still in the cache. |
| `KernelProtocol.AnswersAgree` | src/triton_jit_function.cpp:95-155 | In every interleaving, even with a request compiled twice, equal requests get one kernel compiled for exactly that request, and unequal requests never share one. |
| `KernelProtocol.EndsWithAnswer` | src/triton_jit_function.cpp:108-155 | A call ends with what is filed under its key, its own kernel if nothing was filed before; only an abandoned call ends without an answer, and no other step answers or files anything. |
| `KernelProtocol.FindAnswers` | src/triton_jit_function.cpp:108-112 | A look-up whose key is filed answers in that very step with the filed kernel, and compiles nothing; a thread goes on only if the key was absent. |
| `KernelProtocol.MissedLooked` | src/triton_jit_function.cpp:108-117 | Who is about to compile has looked, during this call, and found the key absent. |
| `KernelProtocol.WarmCallAnswers` | src/triton_jit_function.cpp:108-117 | A call that begins after an equal request was answered gets the same kernel from its look-up: it never compiles and is never abandoned, whatever runs beside it. |
| `KernelProtocol.EntriesStay` | src/triton_jit_function.cpp:151-153 | Entries are never replaced or removed. |
| `LaunchHooks.SwapKeeps` | src/launch_hooks.cpp:29-55 | The exchange of the update loop keeps the refinement, also when the pointer went to null and back, and when the exchange fails spuriously. |
| `LaunchHooks.UpdatesAreAtomic` | src/launch_hooks.cpp:29-78 | In every interleaving, what is visible is the effect of all updates in the order of their successful swaps and stores. |
| `LaunchHooks.VisibleIsLatest` | src/launch_hooks.cpp:29-78 | In every state of every run, the visible enter hook is the one of the last enter setter that took effect with no clear after it, and none otherwise; the exit hook likewise. |
| `LaunchHooks.ShowsOne` | src/launch_hooks.cpp:67-78 | That determines both hooks. |
| `LaunchHooks.SetterChangesItsSide` | src/launch_hooks.cpp:67-78 | A setter that takes effect changes its own side and leaves the other as it was, a clear empties both, and no other step changes what the next launch sees. |
| `LaunchHooks.SetterFinishes` | src/launch_hooks.cpp:33-53 | From every reachable state a setter that is left alone is done after at most four own steps, for a failed exchange reloads the pointer. |
| `LaunchHooks.EffectOfReturnedCall` | src/launch_hooks.cpp:31-55 | A setter that returned took effect exactly once, during its call: no update is lost. |
| `LaunchHooks.LogGrowsByEffects` | src/launch_hooks.cpp:31-78 | Nothing else takes effect: the log of updates grows only by such effects. |
| `LaunchHooks.LaunchUsesOneSnapshot` | include/triton_jit/triton_kernel.h:129-190 | A launch runs the hooks that were the latest at one moment of the call, enter, backend, exit in that order, and exit exactly after the backend launch succeeded; an enter hook that throws ends it before the backend. |
| `LaunchHooks.RecordsAreTrue` | include/triton_jit/triton_kernel.h:151-188 | The enter hook that runs is the one visible at the snapshot, it ends the launch exactly if it throws, and the backend's own answer decides about the exit hook. |
| `LazyLoad.LoadedOnce` | include/triton_jit/triton_kernel.h:200-219 | However many threads launch at once, the module is loaded successfully at most once and every call returns that handle; a failed load can be tried again. |
| `LazyLoad.FlagMeansHandle` | include/triton_jit/triton_kernel.h:200-219 | Whoever sees the flag set finds the handle in place, at the first check and at the one under the lock. |
| `LazyLoad.WarmCallReturns` | include/triton_jit/triton_kernel.h:210-211 | Once the module is loaded, a call gets the handle at its first step, frozen or not, without lock and load. |
| `LazyLoad.ColdCall` | include/triton_jit/triton_kernel.h:210-219 | While nothing is loaded, a frozen call is refused at once and any other goes on; a load that fails changes nothing and frees the lock. |
| `Signature.JoinSigStream` | include/triton_jit/jit_utils.h:356-366 | The joining loop writes the tokens with one comma between neighbours. |
| `Signature.BracketAwareSplit` | scripts/standalone_compile.py:192-223 | The accumulating Python reader computes the reference split, errors included. |
| `Signature.SplitSignatureTokens` | include/triton_jit/backends/npu_arg_buffer.h:146-190 | The index-based C++ reader computes the reference split, errors included. |
| `Signature.ReadersAgree` | scripts/standalone_compile.py:192-223 | Both readers succeed or fail together with equal tokens on all texts whose white space both count as such. |
| `Signature.ReadersAgreeIff` | scripts/standalone_compile.py:192-223 | For a Python that trims at least blanks and tabs, both readers give the same result exactly when no token of the C++ one begins or ends with anything Python trims. |
| `Signature.CxxTrims` | include/triton_jit/backends/npu_arg_buffer.h:146-153 | The C++ reader trims blanks and tabs, and nothing else. |
| `Signature.ReadersDiffer` | include/triton_jit/backends/npu_arg_buffer.h:146-190 | A lone line feed has no token for one reader and one token for the other. |
| `Signature.SplitIsWellFormed` | scripts/standalone_compile.py:192-223 | Whatever a reader accepts, it hands out well-formed tokens: balanced, trimmed, not empty, no top-level comma. |
| `Signature.JoinSplits` | include/triton_jit/jit_utils.h:356-366 | Splitting a joined list gives the list back exactly when every token is well-formed. |
| `JitToken.HexEncodeLoop` | src/jit_function_arg.cpp:49-58 | The loop writes two lower-case digits a byte, in order. |
| `JitToken.TokenRoundTrip` | scripts/standalone_compile.py:258-283 | A printed callee token parses back to the same path, name and fingerprint exactly when the path is absolute and both strings are non-empty UTF-8; otherwise it is refused. |
| `JitToken.TokenIsWellFormed` | src/jit_function_arg.cpp:113-116 | A callee token survives joining and splitting in both readers. |
| `JitToken.FingerprintOfHash` | src/jit_function_arg.cpp:60-64 | Every 64-bit hash prints as a 16-digit fingerprint that still tells the hash. |
| `PackedLayout.NextMultipleIs` | include/triton_jit/triton_jit_function.h:47-50 | Both alignment formulas of the source give the next multiple of the step. |
| `PackedLayout.CellSits` | include/triton_jit/triton_jit_function.h:63-87 | In a buffer of naturally aligned cells every cell is intact, aligned, and behind the one before it. |
| `ParameterBuffer.SignedReadsBack` | include/triton_jit/jit_utils.h:236-247 | A signed number is read back from as many of its low bytes as it fits into, whatever width it was stored with. |
| `ParameterBuffer.Buffer.PushArg` | include/triton_jit/triton_jit_function.h:63-77 | Pushing appends exactly one value, aligned, and disturbs none of those before. |
| `ParameterBuffer.Buffer.GetPtrs` | include/triton_jit/triton_jit_function.h:79-87 | There is one pointer per pushed value, in order, and it leads to that value's bytes. |
| `ArgEmitter.ArgHandle.HandleArg` | include/triton_jit/triton_jit_function.h:137-250 | One argument takes one slot, emits one token and pushes the values of its kind, or throws, with earlier tokens and values unchanged. |
| `ArgEmitter.EmitRefuses` | include/triton_jit/triton_jit_function.h:137-312 | An argument throws exactly where its slot does not take it: pointers and tuples in constexpr slots, unsupported dtypes and scalars, and anything but strings and absent arguments past the static signature. |
| `ArgEmitter.ArgHandle.HandlePointer` | include/triton_jit/triton_jit_function.h:252-305 | A tensor or device pointer pushes its address and prints its type with the alignment and range hints its slot allows; in a constexpr slot it is refused. |
| `ArgEmitter.ArgHandle.HandleNumber` | include/triton_jit/triton_jit_function.h:315-368 | A number prints and pushes what its slot's kind asks for: nothing pushed for constexprs and for specialised ones, narrowed names for signed integers. |
| `ArgEmitter.ArgHandle.HandleTuple` | include/triton_jit/triton_jit_function.h:158-180 | A tuple pushes one value per element, in order, under one parenthesised token; in a constexpr slot it is refused. |
| `ArgEmitter.ArgHandle.AppendGlobalScratch` | include/triton_jit/triton_jit_function.h:370-373 | One null pointer is pushed; no token, no slot. |
| `ArgEmitter.HandleArgs` | include/triton_jit/triton_jit_function.h:472-474 | Handling all arguments yields the tokens and the values of each, in order, and throws exactly when one of them does. |
| `ArgEmitter.Call` | include/triton_jit/triton_jit_function.h:464-482 | A call packs the values of all arguments in order followed by the scratch pointers, with the joined tokens as signature; it throws exactly when some argument does. |
| `SignatureCompiler.ResolveCallees` | scripts/standalone_compile.py:353-359 | The callees are exactly the parameters with a callee token, each the one that its token names; it fails exactly when some such token is malformed. |
| `SignatureCompiler.FindConstants` | scripts/standalone_compile.py:519-527 | The constants are exactly the callees and the constexpr slots, each with the value its token is read as. |
| `SignatureCompiler.ParseTypes` | scripts/standalone_compile.py:530-534 | There is a type for exactly the parameters that are not constants, each what its token says; it fails exactly when some token does. |
| `SignatureCompiler.ReadHints` | scripts/standalone_compile.py:538-559 | The loop over a token's parts reads at most one hint of 1 or 16 and at most one range mark on a pointer, skips parts that mean None, and fails on anything else. |
| `SignatureCompiler.FindHints` | scripts/standalone_compile.py:536-565 | Every parameter that is no constant yet has the hints that its token carries; it fails exactly when some token's do not read. |
| `SignatureCompiler.Assemble` | scripts/standalone_compile.py:607-666 | Every parameter is classified as its token alone says, with the value of a constant, or the types and the assumptions of a runtime parameter. |
| `SignatureCompiler.CompileSignature` | scripts/standalone_compile.py:513-666 | The signature part of the compiler classifies every parameter by its token alone, and raises exactly when splitting or some token does. |
| `AbiAgreement.FormatReads` | scripts/standalone_compile.py:415-440 | A printed constexpr number is read back as that number: a bool as the bool, an integer as the integer; for a fraction, what Python reads in the printed text. |
| `AbiAgreement.NumberDelivers` | include/triton_jit/jit_utils.h:236-247 | The packed bytes of a number, read as the type printed for it, are that number, narrowed integers included. |
| `AbiAgreement.TextAgrees` | scripts/standalone_compile.py:519-566 | A string, for which nothing is packed, agrees with the compiler's reading exactly when it is harmless: any string for a constexpr parameter, elsewhere one that calls itself a constant, and in both cases no malformed callee. |
| `AbiAgreement.ScanHintsIs` | scripts/standalone_compile.py:538-559 | The loop over the hints succeeds exactly with at most one range mark, on a pointer, and at most one number, 1 or 16; it finds a one exactly if some part is read as 1. |
| `AbiAgreement.PlainTextAgrees` | scripts/standalone_compile.py:621-624 | Outside constexpr parameters, of all strings without a colon only the words nullopt and constexpr are harmless. |
| `AbiAgreement.SlotAgrees` | scripts/standalone_compile.py:513-666 | For one argument of any kind: it prints one whole token, and the compiler's reading of it agrees with the packed values, exactly when it is sound; only strings, and callees with undecodable names, can fail to be. And then a constant equals the argument, packed bytes read as it, and the divisibility and range that the compiler assumes are true and the ones the slot allows. |
| `AbiAgreement.CallAgrees` | include/triton_jit/triton_jit_function.h:137-373 | For every static signature and argument list, the compiler reads the printed tokens and agrees with the packed values on each, exactly when every argument is sound; and then each argument reaches the kernel as its own value, constant or packed, with true assumptions only. |
| `AbiAgreement.UnderstoodFits` | scripts/standalone_compile.py:655-666 | Then the runtime types that the compiler expects are matched by the packed values one by one, in order. |
| `AbiAgreement.TokensSurvive` | include/triton_jit/jit_utils.h:356-366 | The printed tokens survive joining and splitting exactly when every string argument is a well-formed token. |
| `AbiAgreement.StrayDisagrees` | scripts/standalone_compile.py:513-666 | Where all tokens survive but some argument is not sound, the compiler raises or takes that argument for something that was not packed. |
| `NpuTransport.ParseSignature` | include/triton_jit/backends/npu_arg_buffer.h:249-255 | The layout is the concatenation of the tokens' entries, or the splitter's error. |
| `NpuTransport.AppendSignatureToken` | include/triton_jit/backends/npu_arg_buffer.h:192-247 | A token appends its own entries to the layout, one per element of a tuple, or is refused. |
| `NpuTransport.CarriedNumber` | include/triton_jit/backends/npu_arg_buffer.h:70-92 | What an entry copies means the same number, also for an int64 that was named i32 and is read from its low 4 bytes. |
| `NpuTransport.SlotFits` | include/triton_jit/backends/npu_arg_buffer.h:192-247 | For one argument, the parser's entries fit the packed values exactly when the argument is of a kind that can cross. |
| `NpuTransport.InfinityIsMisread` | include/triton_jit/backends/npu_arg_buffer.h:192-247 | Constexpr infinities and NaNs are taken for int64 arguments that were never packed. |
| `NpuTransport.ParsedLayoutFits` | include/triton_jit/backends/npu_arg_buffer.h:192-255 | Parsing the joined signature has one entry per packed value, in order, each of which carries its value, if every argument prints a whole token and can cross. |
| `NpuTransport.NpuArgBuffer.SetSystemArgs` | include/triton_jit/backends/npu_arg_buffer.h:55-59 | The header is the three system words. |
| `NpuTransport.NpuArgBuffer.PushArg` | include/triton_jit/backends/npu_arg_buffer.h:61-68 | Aligning, growing and copying append one aligned cell and keep everything before it. |
| `NpuTransport.NpuArgBuffer.PushArgsFromLayout` | include/triton_jit/backends/npu_arg_buffer.h:94-100 | The block grows by exactly one field per entry, read from where its pointer leads. |
| `NpuTransport.NpuArgBuffer.SetGrid` | include/triton_jit/backends/npu_arg_buffer.h:102-111 | The three grid sizes follow as aligned 32-bit cells. |
| `NpuTransport.FieldDecodes` | include/triton_jit/backends/npu_arg_buffer.h:61-92 | Field i sits aligned behind the header and decodes to packed value i. |
| `NpuTransport.LaunchKernel` | include/triton_jit/backends/npu_backend.h:139-201 | The launcher takes the layout from the signature, or from the metadata for want of one, refuses a missing or malformed one and a wrong stated count, and otherwise lays out header, one field per value, and grid. |
| `NpuTransport.TransportCall` | include/triton_jit/backends/npu_backend.h:139-201 | Host and launcher together: for any arguments that can cross, the block is the system header, one field per packed value, and the grid. |
| `NpuTransport.BlockDecodes` | include/triton_jit/backends/npu_arg_buffer.h:55-129 | Reading the block back: the 24-byte header is intact, every field is naturally aligned and decodes to its packed value, and the grid changes neither. |
| `NpuTransport.HeaderDecodes` | include/triton_jit/backends/npu_arg_buffer.h:55-59 | The first three words decode to the control address, the lock and the workspace, in this order. |
| `NpuTransport.GridDecodes` | include/triton_jit/backends/npu_arg_buffer.h:102-111 | The last twelve bytes, 4-aligned behind the fields, decode to the three grid sizes. |
| `TileSchedule.PidOfTile` | operators/matmul/mm/mm.py:44-52 | Every program's tile is inside the grid and names the program, short last group included. |
| `TileSchedule.TileOfPid` | operators/matmul/mm/mm.py:44-52 | Every tile has a program: the grouped schedule is a bijection. |
| `TileSchedule.GroupByGroup` | operators/matmul/mm/mm.py:44-52 | Programs finish one group of row tiles before the next, and inside a group one column before the next. |
| `Matmul.Accumulate` | operators/matmul/mm/mm.py:54-69 | The K loop with wrapped loads and K masks leaves in every lane the whole product of its row and column. |
| `Matmul.StoreTile` | operators/matmul/mm/mm.py:73-77 | The masked store writes exactly the tile's elements inside C. |
| `Matmul.Kernel` | operators/matmul/mm/mm.py:44-77 | One program writes every element it owns with its product and nothing else. |
| `Matmul.OneOwner` | operators/matmul/mm/mm_op.cpp:53-55 | Every element of C is owned by exactly one program of the grid. |
| `Matmul.AddTerms` | operators/matmul/mm/mm.py:64-67 | One pass of the K loop adds exactly the next block of terms; lanes past the end of K add nothing. |
| `Matmul.Launch` | operators/matmul/mm/mm.py:44-77 | Programs in any order leave the matrix product in C and touch no other memory, for all sizes, blocks, groups and strides. |
| `Matmul.ContiguousProduct` | operators/matmul/mm/mm_op.cpp:53-65 | For contiguous row-major tensors the launch has all it asks for, and the product is that of rows of A with columns of B. |
| `Softmax.MaxIsGreatest` | operators/normalization/softmax/softmax.py:48-56 | The maximum is attained and no number or infinity of the row is above it. |
| `Softmax.LaneStep` | operators/normalization/softmax/softmax.py:67-71 | One online step keeps a lane's mass: it grows by exactly the new element's weight, also from and to -inf. |
| `Softmax.OnlineStep` | operators/normalization/softmax/softmax.py:63-71 | One tile keeps the lanes' maximum the maximum so far and their mass the weight so far, masked tail included. |
| `Softmax.MergeLanes` | operators/normalization/softmax/softmax.py:73-75 | Merging the lanes gives the whole weight relative to the overall maximum. |
| `Softmax.OutputIsSoftmax` | operators/normalization/softmax/softmax.py:77-83 | Dividing by the merged sum gives the definition for every element, defined or not. |
| `Softmax.OnlinePass` | operators/normalization/softmax/softmax.py:58-75 | After the first pass m is the row's maximum and z its weight relative to it. |
| `Softmax.OneTile` | operators/normalization/softmax/softmax.py:48-56 | The one-tile form writes the definition to the row's outputs and nothing else. |
| `Softmax.MultiPass` | operators/normalization/softmax/softmax.py:57-83 | The multi-pass form writes the same, for every length and tile. |
| `Softmax.Kernel` | operators/normalization/softmax/softmax.py:31-83 | The kernel for one row computes the definition in either form and changes no output outside the row. |
| `Softmax.Launch` | operators/normalization/softmax/softmax_op.cpp:64-93 | Rows in any order: every row's outputs are its softmax, and memory outside the rows does not change, for all strides that keep rows apart. |
| `Softmax.SharesAddUp` | operators/normalization/softmax/softmax.py:31-83 | The defined outputs of a row add up to one. |
| `Softmax.ShareShifted` | operators/normalization/softmax/softmax.py:31-83 | The definition equals its shifted form: exp(x_j - max) over the sum of all exp(x_i - max). |
| `Softmax.DefinedIff` | operators/normalization/softmax/softmax.py:31-83 | Outputs are numbers exactly for rows with a finite input and no +inf. |
| `Reduce.ArgMaxIsLeast` | operators/reduce/max/max.py:150-151 | The left-most argmax is the least index attaining the maximum. |
| `Reduce.ArgMaxMerge` | operators/reduce/max/max.py:150-156 | Scanning one more block moves the running index exactly when the block's maximum is strictly greater, and this is the argmax of both. |
| `Reduce.OneWorker` | operators/reduce/max/max.py:128-136 | Every row belongs to one block of one worker, and that worker's loop reaches it. |
| `Reduce.ScanRows` | operators/reduce/max/max.py:139-156 | The blocked scan gives each row's maximum and argmax, masked tail included. |
| `Reduce.StoreRows` | operators/reduce/max/max.py:158-160 | The masked stores write the block's rows and no other. |
| `Reduce.MaxWithIndices` | operators/reduce/max/max.py:117-160 | One worker stores maximum and least index for exactly its rows of a contiguous tensor. |
| `Reduce.Launch` | operators/reduce/max/max.py:117-160 | Workers in any order: every row of a contiguous tensor has its maximum and the least index attaining it. |
| `Reduce.TwoPasses` | operators/reduce/argmax/argmax.py:32-67 | Maxima of blocks determine the maximum, and the first best block holds the first best element. |
| `Reduce.ArgMaxKernel1` | operators/reduce/argmax/argmax.py:41-54 | The first pass stores one block's maximum and global index, and nothing else. |
| `Reduce.ArgMaxKernel2` | operators/reduce/argmax/argmax.py:60-67 | The second pass picks the index stored for the first block with the greatest maximum, however wide its masked load. |
| `Reduce.ArgMax` | operators/reduce/argmax/argmax.py:32-67 | The two-pass argmax of a whole tensor is the least global index of its maximum, for every size and block size. |
| `ReduceDim.ArgMaxDimKernel` | operators/reduce/argmax/argmax.py:70-108 | One program stores exactly the outputs of its block of rows, for every trailing element, each the least index of its line's maximum. |
| `ReduceDim.ArgMaxDim` | operators/reduce/argmax/argmax_op.cpp:64-69 | The launch over all blocks of rows leaves the right index in every output, in flat memory of any shape. |
| `ReduceDim.ArgMaxWrapper` | operators/reduce/argmax/argmax.py:173-176 | Under the wrapper's grid exactly the outputs of the first 4096 blocks of rows are computed, all right; the others keep what the memory held. |
| `ReduceDim.WrapperCovers` | operators/reduce/argmax/argmax.py:173-176 | These are all outputs exactly when there are at most 4096 blocks of rows. |
| `ReduceDim.KeptNext` | operators/reduce/max/max.py:105-113 | Lane-wise running maxima together keep the maximum of all columns seen. |
| `ReduceDim.RowMaxima` | operators/reduce/max/max.py:104-113 | Each row of a block gets its maximum, masked tail included. |
| `ReduceDim.MaxDimKernel` | operators/reduce/max/max.py:82-114 | One worker stores the maximum of exactly its rows. |
| `ReduceDim.MaxDim` | operators/reduce/max/max.py:82-114 | Workers in any order: every row of a contiguous tensor has its maximum. |
| `PowersOfTwo.Smear` | operators/normalization/softmax/softmax_op.cpp:36-45 | One smearing step doubles the number of leading ones. |
| `PowersOfTwo.NextPowerOf2` | operators/normalization/softmax/softmax_op.cpp:36-45 | Bit smearing gives the same least power of two as the bit-counting form, from 1 to 2^62. |
| `PowersOfTwo.DoublingBlockSize` | operators/normalization/rms_norm/rms_norm_op.cpp:48-49 | The doubling loop gives it too. |

## Left out

Parts of the repository:

- JSON, files, environment variables, logging, table fingerprints, device drivers, pybind and the GIL are not modelled; parsed rows, resolver replies, backend results and hook effects are parameters.
- The resolver (`scripts/tuned_resolver.py`) is an arbitrary function that answers, declines or throws. `set_resolver` during a call is not modelled: each request says whether it saw a resolver, as `resolve` loads it once.
- `clear()` of the table is not modelled. It frees what retention is about; the theorems hold until it is called.
- A `load` is a publication per kernel, as in the code; that the kernels of one file appear one after the other is left unsaid.
- Weak memory order: atomic accesses are sequentially consistent steps.
- Hash functions: the table is proved for every hash, and the fnv1a64 hash is therefore not written out; masks of power-of-two counts are remainders, pointers are indices and never null, and the empty link is -1.
- 32-bit wrap-around of an offline row index (over four billion rows in one kernel), values near the ends of int64 in align strategies and above 2^62 in the power-of-two forms, and unsigned overflow of grid products.
- Floating-point rounding and dtype casts: kernels compute over exact reals with infinities and NaN; `exp` is any positive function that turns sums into products. NaN inputs are excluded.
- Programs of a launch run one after the other, in every order; they touch disjoint outputs. Inputs and outputs do not alias.
- Python's `int`, `float`, UTF-8 decoding and white space are parameters: `int` reads decimal numerals, blanks and tabs are white space. What fmt prints for a floating-point number, and whether Python's `float` reads the same number in it, is not modelled; the theorems say that the text reaches the compiler.
- The compiler drops the pointer-range mark if the installed backend does not support it; the model keeps it. The choice of the NPU launch block count is not modelled.
- GCU's fp64-to-fp32 change of the signature, arguments of type `nullptr_t`, and Triton versions before 3.3.
- Softmax along other dimensions, full-tensor max, host permutes, top-k and the pointwise, fill, cat, nonzero and embedding operators: they would add easier members only.
- Freeze guards by themselves; they appear as the refusal inside `resolve`, `get_kernel` and the module load.

Contracts stated for less than the code is called with:

- AllAnswersAgree: for runs in which the kernel is not loaded, calls that began after the first state, and requests with separate token texts; a load may replace a configuration, and CollisionMisleads shows what a shared text does.
- SharedOutcome: a waiter's pointer was an answer in the time of the owner, not necessarily in its own; LoadOutrunsWaiter shows why.
- AskedOncePerKey: for kernels whose schema was bound before the calls began; AskedTwice shows the other case.
- ProgressIsBounded: a resolver that never returns, for instance because it calls resolve for its own key and so waits for itself, keeps its promise open; the theorem speaks of steps that are made.
- FlightTokenInjective: for dtype names without commas that are not decimal integers; c_str() text after a NUL is not part of a token.
- Pow2CeilIsLeast: up to 2^62; above it the code returns the value itself.
- NormalizeFitsInt64: outside the code's own overflow of `value + 31`.
- HandleNumber: the code compares the hint's `const char*` with the literal ":1", that is, addresses; the model compares texts, as a build that merges equal literals does.
- TransportCall: for arguments that print whole tokens and can cross; SlotFits says exactly which ones can.
- ArgMaxDim: needs at least one trailing element; without one there are no outputs.
- ArgMax: the second pass needs its block to hold all maxima of the first, as the host chooses it.
