# Direct-request OCR listener, EVM chain set and send-only node: a Dafny model

This project models four parts of a Chainlink node written in Go:

- **`DRListener`** (`drlistener.dfy`) is the direct-request OCR log listener. It covers:
  - which oracle logs reach the mailbox;
  - how the mailbox is drained into request and response handlers;
  - the sequence of store and pipeline calls a request handler makes;
  - decoding of pipeline task outputs (`ExtractRawBytes`) and rendering of request identifiers;
  - the schedule of the request-timeout sweeper.
- **`Evm`** (`chain_set.dfy`) is the EVM chain set. Chains are kept in a map keyed by the decimal string of their chain ID. It covers:
  - construction from the chain records in the database;
  - lookup and resolution of the default chain;
  - enabling and disabling a chain at runtime;
  - listing the chains, and `Start`/`Close`/`Healthy`/`Ready` across all of them with their errors combined.
- **`Client`** (`client.dfy`) is the send-only node of the EVM client. It covers:
  - the state enumeration and its two renderings;
  - the state setter;
  - the chain-ID verification loop.
- **Support modules.** `Decimal` renders integers in decimal (Go's `%d` and `big.Int.String`). `Hex` renders bytes as lowercase hex (`%x`) and parses `0x` hex strings. `Wrappers` holds `Option` and `Result`.

How the model works:

- **Collaborators are inputs.** The ORMs, the pipeline runner, the log broadcaster, `newChain` and each chain's own lifecycle methods appear as parameters that give their answers. What the listener asks of its collaborators is returned as a sequence of `Call` values.
- **Combined errors.** A `multierr` aggregate is a list of errors; the empty list stands for nil.
- **Goroutine loops become traces.** Each loop that waits on a channel is a method over a finite trace of what it observes:
  - the mailbox drain takes a stop position;
  - the timeout sweeper takes ticks and a stop;
  - the verification loop takes chain-ID answers and a stop.
  Each such method is proved equal to a specification function, or its outputs are stated pointwise.

Two behaviours of the listener's code are worth stating because they are easy to get wrong:

- **Malformed task output.** A task output that `ExtractRawBytes` rejects is only logged. No error is recorded against the request (`core/services/directrequestocr/drlistener.go:250-254` and `264-268`).
- **A single hex byte is accepted.** The comment above the decoder (`drlistener.go:175-180`) allows `"0x<val>"` for any non-empty, valid hex `<val>`. So `"0xab"` decodes to one byte: its content has four characters, which passes the even-and-at-least-four gate at `drlistener.go:189`. `DRListener.ExtractExamples` proves this.

`Evm.ChainSet.Configure` follows the code as written, including the fall-through on a chain without a primary node (see "## Findings"). The intended step is `Evm.EnableStep`, which is also the step `NewChainSet`'s loop takes (`Evm.EnableStepMatchesLoadStep`).

## Model

| member | source | states |
|---|---|---|
| Decimal.IntToString | core/chains/evm/client/send_only_node_fsm.go:24 | the rendering is non-empty and contains no parenthesis |
| Decimal.IntRoundTrip | core/chains/evm/client/send_only_node_fsm.go:24 | parsing the decimal rendering of any integer gives that integer back |
| Decimal.IntToStringInjective | core/chains/evm/chain_set.go:80 | distinct chain IDs have distinct registry keys (`id.String()`) |
| Hex.EncodeLower | core/services/directrequestocr/drlistener.go:204 | `%x` yields two lowercase hex digits per byte |
| Hex.DecodePairs | core/services/directrequestocr/drlistener.go:192 | a successful pairwise decode yields one byte per two digits |
| Hex.DecodeEncode | core/services/directrequestocr/drlistener.go:192 | decoding the lowercase encoding of any byte string gives it back |
| Hex.TryParseHex | core/services/directrequestocr/drlistener.go:192 | input without a `0x`/`0X` prefix is rejected; a success has one byte per two digits, with an odd digit count padded |
| Hex.FormatHexBytes | core/services/directrequestocr/drlistener.go:204 | `0x%x` has the prefix and 2 + 2n characters |
| Hex.FormatHex | core/services/directrequestocr/drlistener.go:204 | `0x%x` as a string is `0x` followed by 2n lowercase hex digits |
| Hex.ParseFormatted | core/services/directrequestocr/drlistener.go:192-204 | `TryParseHex` inverts the `0x%x` rendering |
| DRListener.ExtractRawBytes | core/services/directrequestocr/drlistener.go:181-193 | unquoted input is rejected; `""` gives the empty value; content of length 1 to 3 or of odd length is rejected; a success is empty exactly for `""` and otherwise has (length − 4) / 2 bytes |
| DRListener.ExtractFormatted | core/services/directrequestocr/drlistener.go:175-193 | the quoted `0x` rendering of any non-empty byte string decodes back to it |
| DRListener.ExtractExamples | core/services/directrequestocr/drlistener.go:175-193 | `""` gives empty; `"0xab"` gives [0xab]; `"0xabcd"` gives [0xab, 0xcd]; `"0xabc"`, `"0x"` and unquoted input are rejected |
| DRListener.FormatRequestId | core/services/directrequestocr/drlistener.go:296-298 | the identifier renders as `0x` and 64 lowercase hex digits |
| DRListener.FormatRequestIdRoundTrip | core/services/directrequestocr/drlistener.go:296-298 | the rendered identifier, quoted, decodes back to the 32 identifier bytes |
| DRListener.HandlerFor | core/services/directrequestocr/drlistener.go:160-169 | requests go to the request handler and responses to the response handler; nothing else has a handler |
| DRListener.Drained | core/services/directrequestocr/drlistener.go:136-170 | a drain starts at most one handler per retrieved entry |
| DRListener.DrainedMembers | core/services/directrequestocr/drlistener.go:146-169 | a handler is started iff the entry is reported not consumed, it decodes to a request or response, and the handler's kind matches |
| DRListener.Listener.constructor | core/services/directrequestocr/drlistener.go:79-81 | after start, three tasks are counted and nothing is queued or dispatched |
| DRListener.Listener.HandleLog | core/services/directrequestocr/drlistener.go:105-122 | only a decoded request or response is appended to the mailbox; nil and other log types are dropped |
| DRListener.Listener.DrainMailbox | core/services/directrequestocr/drlistener.go:129-173 | returns because of stop iff stop comes within the queue; the mailbox becomes the unretrieved suffix; the started handlers are `Drained` of the retrieved prefix; the wait group grows by one per handler |
| DRListener.RequestVars | core/services/directrequestocr/drlistener.go:202-204 | the pipeline's `requestId` is the 66-character `0x` identifier; `data` is `0x` and two hex digits per data byte; the log's transaction hash is passed on |
| DRListener.HandleOracleRequest | core/services/directrequestocr/drlistener.go:195-279 | calls, in order: create the DB entry, run the pipeline, then at most one outcome record. A failed create or run stops early. Missing output records a node exception; a malformed encoding records nothing; a non-empty error output records a user exception; otherwise the result is recorded |
| DRListener.HandleOracleResponse | core/services/directrequestocr/drlistener.go:281-288 | exactly one `SetConfirmed` for the response's request |
| DRListener.TimeoutRequests | core/services/directrequestocr/drlistener.go:300-327 | the sweeper is disabled if any of the three settings is zero. Otherwise there is one `TimeoutExpiredResults(now − timeout, batch)` query per tick, up to the first stop |
| Client.String | core/chains/evm/client/send_only_node_fsm.go:9-26 | each of the six named states renders as the name of its `iota` position; any other value renders as `SendOnlyNodeState(n)` |
| Client.StateNamesDistinct | core/chains/evm/client/send_only_node_fsm.go:9-26 | the six names are pairwise distinct |
| Client.StringInjective | core/chains/evm/client/send_only_node_fsm.go:9-26 | no two states, named or not, have the same `String` |
| Client.GoString | core/chains/evm/client/send_only_node_fsm.go:43-46 | the rendering starts with `SendOnlyNodeState` and ends with `)` |
| Client.GoStringInjective | core/chains/evm/client/send_only_node_fsm.go:43-46 | no two states have the same `GoString` |
| Client.Verify | core/chains/evm/client/send_only_node_lifecycle.go:15-57 | the loop consumes at most the trace. It runs out of outcomes iff it consumed all of them with the last one a retry (or there were none); every other exit consumes at least one outcome |
| Client.VerifyStopsAtFirstDecision | core/chains/evm/client/send_only_node_lifecycle.go:19-56 | every consumed outcome before the last one is a retry. The last one decides the exit: stop, started-check failed, or matching ID |
| Client.VerifyIgnoresLaterEvents | core/chains/evm/client/send_only_node_lifecycle.go:15-57 | once the loop has returned, later outcomes change nothing |
| Client.VerifyWrites | core/chains/evm/client/send_only_node_lifecycle.go:27-51 | a verified exit leaves the node Alive; in any other exit the state is unchanged or InvalidChainID |
| Client.VerifyKeepsStateWithoutMismatch | core/chains/evm/client/send_only_node_lifecycle.go:22-26 | query errors alone never change the state |
| Client.VerifyMarksMismatch | core/chains/evm/client/send_only_node_lifecycle.go:27-42 | a consumed mismatch on a started node leaves it InvalidChainID unless the loop later verifies |
| Client.SendOnlyNode.constructor | core/chains/evm/client/send_only_node_fsm.go:28-30 | a new node is Undialed |
| Client.SendOnlyNode.SetState | core/chains/evm/client/send_only_node_fsm.go:48-52 | the state becomes the argument, and nothing else changes |
| Client.SendOnlyNode.VerifyLoop | core/chains/evm/client/send_only_node_lifecycle.go:15-57 | the new state, the outcomes consumed and the exit are exactly `Verify` of the old state |
| Evm.CheckOpts | core/chains/evm/chain_set.go:214-225 | the options pass iff the logger and the config are present; a missing logger is reported first |
| Evm.BuildRegistry | core/chains/evm/chain_set.go:194-210 | the outcome of the construction loop; a loaded registry has at most one error per record, and a duplicate needs at least one record |
| Evm.DuplicateAborts | core/chains/evm/chain_set.go:206-208 | after a duplicate, no later record changes the outcome |
| Evm.RegistryContents | core/chains/evm/chain_set.go:194-210 | a loaded registry is keyed by chain-ID string. It holds exactly the successfully built chains, each as built from its record. Its errors are exactly the non-primary-node build failures |
| Evm.DuplicateIff | core/chains/evm/chain_set.go:194-210 | construction aborts iff two successfully built records share a chain ID |
| Evm.EnableStepAsWritten | core/chains/evm/chain_set.go:122-134 | as written, the enable branch never ignores a chain: unless `newChain` failed for another reason, the returned chain is started, inserted iff its Start returned nil, and otherwise the Start error is returned |
| Evm.EnableStep | core/chains/evm/chain_set.go:122-134 | inserts iff the chain was built and started cleanly, as built from the updated record; ignores iff there is no primary node; any rejection carries an error |
| Evm.EnableStepDiscrepancy | core/chains/evm/chain_set.go:125-133 | on a chain without a primary node, the code as written registers it when its Start succeeds and returns the Start error otherwise, where the intended step ignores it; on every other build outcome the two agree |
| Evm.EnableStepMatchesLoadStep | core/chains/evm/chain_set.go:199-209 | for an unregistered key, the intended step skips a no-primary-node chain and inserts a built one, as the construction loop does |
| Evm.Combined | core/chains/evm/chain_set.go:48-73 | the `multierr.Combine` fold over the chains; it holds at least as many errors as any single chain returned |
| Evm.CombinedMembers | core/chains/evm/chain_set.go:48-73 | the combined error holds exactly the per-chain errors, and it is nil iff every chain returned nil |
| Evm.ChainSet.constructor | core/chains/evm/chain_set.go:193 | a new set has the given default ID and no chains |
| Evm.ChainSet.Get | core/chains/evm/chain_set.go:75-85 | no ID means `Default`. A given ID succeeds iff its key is registered, returning the chain with that ID; otherwise the error is "chain not found" for that ID |
| Evm.ChainSet.Default | core/chains/evm/chain_set.go:87-96 | no chains gives `ErrNoChains`, checked before a missing default ID. Otherwise the default is looked up, and a success is a registered chain with the default ID |
| Evm.ChainSet.ChainCount | core/chains/evm/chain_set.go:147-149 | the count is zero iff `Default` reports no chains |
| Evm.ChainSet.Chains | core/chains/evm/chain_set.go:140-145 | every registered chain appears exactly once |
| Evm.ChainSet.CombineOver | core/chains/evm/chain_set.go:48-73 | the operation is invoked on every chain. The error is nil iff every chain returned nil, and contains exactly the chains' errors |
| Evm.ChainSet.Start | core/chains/evm/chain_set.go:48-54 | starts every chain; the error is nil iff every start succeeded, and holds each failure |
| Evm.ChainSet.Close | core/chains/evm/chain_set.go:55-61 | closes every chain; the error is nil iff every close succeeded, and holds each failure |
| Evm.ChainSet.Healthy | core/chains/evm/chain_set.go:62-67 | checks every chain; the error is nil iff every chain is healthy, and holds each failure |
| Evm.ChainSet.Ready | core/chains/evm/chain_set.go:68-73 | checks every chain; the error is nil iff every chain is ready, and holds each failure |
| Evm.ChainSet.Configure | core/chains/evm/chain_set.go:98-138 | ORM failures return their error and change nothing. Disabling a present chain removes it and returns that chain's close error. Enabling an absent chain follows `EnableStepAsWritten`: the chain is inserted and the record returned, or nothing changes and the error is returned. Otherwise nothing changes and the updated record with its nodes is returned. Afterwards a disabled ID is not found; an enabled ID is found when `newChain` did not fail for a reason other than a missing primary node and no error was returned |
| Evm.NewChainSet | core/chains/evm/chain_set.go:187-212 | bad options give their error and no set. A duplicate gives "duplicate chain" and no set. Otherwise the set has the configured default ID, exactly `BuildRegistry`'s chains, and the combined build errors |
| Evm.LoadChainSet | core/chains/evm/chain_set.go:172-185 | bad options give their error. EVM disabled gives an empty set with no default. An ORM failure is wrapped as "error loading chains". Otherwise the result is that of `NewChainSet` |

## Left out

- The code of `utils.TryParseHex` is not part of this model. `Hex.TryParseHex` defines it as: a `0x`/`0X` prefix, an odd digit count padded with a leading `0`, and hex digits of either case.
- `DRListener.Listener.HandleLog`: the mailbox is unbounded. The high-capacity mailbox evicting its oldest entry when full is not modelled.
- `DRListener.Listener.DrainMailbox`: the outer `Notify` wait and the goroutines themselves are not modelled; concurrency is out of scope. Handlers are recorded as started but not run, and their `Done` calls on the wait group are not counted.
- `DRListener.HandleOracleRequest`: errors returned by `SetError`, `SetResult` and `SetConfirmed` are only logged, so they are not inputs. Marking the log consumed inside the pipeline transaction is not modelled. Job metadata, block provenance and the raw log fields pass into the pipeline opaquely and are left out.
- Listener `Start` and `Close` are not modelled: broadcaster registration, the `MinIncomingConfirmations` option, the unsubscribe goroutine, context cancellation, the mailbox monitor, and the start-once guards. The constructor stands for the state right after `Start`.
- `DRListener.TimeoutRequests`: the ticker period and the answer of `TimeoutExpiredResults` are not modelled. A failing query only ends that `select` round.
- Clock readings, logging, and the backoff durations of the verification loop are left out. Where a time matters it is a parameter.
- `Client.SendOnlyNode.VerifyLoop`: the `IfStarted` guard is modelled as a flag carried by each answer, not as the node's start-stop state. The mutex in `setState` is not modelled.
- `Evm.LoadChainSet`: with EVM disabled the Go set holds a nil map (`chain_set.go:178`). The model uses an empty map. Reads behave the same. A write does not: a later `Configure` that enables a chain reaches the insert at `chain_set.go:133`, which panics on the nil map in Go, while the model inserts the chain.
- `Evm.ChainSet.Configure`: the chain value `newChain` returns alongside `ErrNoPrimaryNode` is an input (`newChain` is not part of this model). Whether it is nil, which would make its `Start` panic, is not visible, so the model starts it like any other chain.
- `Evm.ChainSet.Configure` requires the ORM's updated record to carry the requested ID, since it is the record `UpdateChain` wrote for that ID. The chain config blob is passed through opaquely and left out. The missing synchronisation noted in the source is not modelled.
- The ORM accessor and `ChainSetOpts`' generator functions are not modelled; they are pass-throughs of collaborators.

## Findings

| source | as written | input that shows it | evidently intended | confidence | as-written member | corrected member |
|---|---|---|---|---|---|---|
| core/chains/evm/chain_set.go:125-133 | when `newChain` fails with `ErrNoPrimaryNode`, `Configure` logs that the chain "will be ignored" but falls through to `chain.Start()` on the value returned with the error, and registers it | `Configure(id, true, cfg)` for an absent chain whose nodes include no primary node | the chain is ignored, as the warning says and as `NewChainSet` does at lines 199-204: nothing is started or registered, and the updated record is returned | not executed | Evm.EnableStepAsWritten | Evm.EnableStep |
