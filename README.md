# TsushoBot message dispatcher, modelled in Dafny

TsushoBot is a Discord bot. When it starts, it stores every command module in a registry (`client.commands`) under the module's `name`. Each incoming chat message then passes through a fixed pipeline:

1. **Tokenize.** The content is split on runs of the space character. The first token is shifted off and lower-cased to give the command; the remaining tokens are the arguments.
2. **Registry lookup.** A token that is not a registry key ends processing silently.
3. **Channel binding.** The channel-binding service is asked with the message and the registered command's `name`. A `false` answer ends processing silently.
4. **Throttle.** The command-throttling service is asked with the binding object's `commandName` and the author's username. A `false` answer ends processing silently.
5. **Run the command.** An `options` object is built: `constants` always, plus `commands` (the whole registry) only for `!help`. The command's `execute(msg, args, options)` runs inside a `try`. If it throws, the bot sends exactly one reply: "Something broke and that last command did not work."

The project has three modules:

- `Tokenizer` (`tokenizer.dfy`), pure functions:
  - `Split` is JavaScript's `split(/ +/)`, with lemmas: no token holds a space; only the first or the last token may be empty; the first (last) one is empty exactly when the content is empty or starts (ends) with a space; `Split` and `JoinRuns` (tokens glued by runs of spaces of given lengths) are inverse to each other; splitting loses nothing but spaces.
  - `Lower` is an ASCII `toLowerCase`.
- `Registry` (`registry.dfy`):
  - the registration loop is the method `BuildRegistry`;
  - it is proved equal to the fold `RegistryOf`, whose keys are the modules' names and which stores every command under its own name;
  - a lemma shows that a later module with the same name wins.
- `Dispatch` (`dispatch.dfy`):
  - `Handle` is a pure specification of the `message` handler. It returns the outcome, the throttle's new state and a trace of the observable events in order: binding query, throttle query, handler call, reply.
  - The class `Client` holds the registry and the services. Its method `HandleMessage` is the handler body, written imperatively as the source has it: `shift` on the token list, early returns, the `options` object filled field by field, and a call to the stateful throttle object. It is proved to produce exactly what `Handle` specifies.
  - `OnMessage` wraps `HandleMessage` with a ghost log. It also keeps a ghost list of the messages received so far. Its invariant ties it to the pure `Run` over that list: the log and the throttle state are exactly what `Run` gives. So the throttle state is the replay, from the initial state, of exactly the throttle queries in the log.
  - Lemmas about `Handle` state the ordering facts: which gate is asked, when, with which key; when the handler runs; when a reply is sent; when `options.commands` is set. They also show that handler faults do not affect the throttle state.

The two services are separate files of the same repository, loaded at index.js:6-7; they are outside the modelled file, so each is an abstract oracle:

- The channel-binding service is a function from (message, command name) to a `BoundCommand`: the object's `commandName` and the answer of `belongsToThisChannel()`. `index.js` builds a new binding object for every message (index.js:39), and the function gives the object built from those arguments.
- The throttle is the class `Throttle<S>`. Its state has the arbitrary type `S`, and `CanBeExecuted` answers and updates that state through an arbitrary transition function `step`. `index.js` builds a new throttling-service object for every message (index.js:52) and calls `canBeExecuted()` on it with no arguments. The single long-lived `Throttle` stands for the state those per-message objects share, and `CanBeExecuted(commandName, username)` combines the construction and the call.

No cooldown arithmetic and no default-allow or default-deny rule is assumed.

A command handler is also an oracle: a function of (message, invocation) that says whether `execute` returned or threw. The shared constants bundle is an arbitrary value of type `C`.

Details of `index.js` the model keeps as written:

- Tokens are separated only by the space character. Tabs and line breaks are not separators.
- The throttle key is the binding object's `commandName`, not the registry name directly. `index.js` never shows that the two are equal.
- The binding service receives the whole message, not just its channel identifier.
- The throttle may change its state whatever it answers.

## Model

| member | source | states |
|---|---|---|
| Tokenizer.Split | index.js:15 | `split(/ +/)` always yields at least one token; no token contains a space; the first token is empty exactly when the content is empty or starts with a space; only the first or the last token can be empty |
| Tokenizer.FirstTokenIsPrefix | index.js:15-16 | the token that becomes the command is the longest space-free prefix of the content |
| Tokenizer.LastTokenEmpty | index.js:15 | the last token is empty exactly when the content is empty or ends with a space |
| Tokenizer.Gaps | index.js:15 | the lengths of the space runs that `split(/ +/)` removes: one per gap between consecutive tokens, each at least one |
| Tokenizer.SplitJoinRuns | index.js:15 | splitting well-formed tokens glued by any non-empty runs of spaces gives back exactly those tokens |
| Tokenizer.SplitRejoins | index.js:15 | every content is its tokens glued back by the space runs that were removed; with `SplitJoinRuns`, splitting is a one-to-one correspondence between contents and (well-formed tokens, run lengths) |
| Tokenizer.SingleToken | index.js:15 | the content splits into exactly one token exactly when it holds no space |
| Tokenizer.SplitKeepsNonSpaces | index.js:15 | the tokens, concatenated, are the content with its spaces removed: splitting loses no other character |
| Tokenizer.LowerChar | index.js:16 | ASCII lower-casing of one character: upper-case letters map to the character 32 code points higher, every other character is unchanged, and the result is never upper-case |
| Tokenizer.Lower | index.js:16 | lower-casing keeps the length, leaves no upper-case letter, shifts each upper-case letter to its lower-case form and keeps every other character |
| Tokenizer.LowerIdempotent | index.js:16 | lower-casing an already lower-cased token changes nothing |
| Tokenizer.LowerKeepsSpaces | index.js:16 | lower-casing neither adds nor removes spaces |
| Registry.BuildRegistry | index.js:10-12 | the registration loop produces the fold `RegistryOf` over the modules; its keys are exactly the module names and every stored command sits under its own name |
| Registry.RegistryOf | index.js:10-12 | the registry after storing every module under its name, in order: its keys are exactly the set of module names, and the command stored under each key `k` has name `k` and is one of the modules |
| Registry.RegistryLastWins | index.js:10-12 | a module with no later module of the same name is the one stored under its name: among modules sharing a name, the later one wins |
| Dispatch.CommandToken | index.js:16 | the command (the lower-cased first token) contains no space and no upper-case letter |
| Dispatch.Arguments | index.js:15-16 | after `shift`, the first token followed by the arguments is exactly the token list, in order; no argument holds a space, only the last may be empty, and there are none exactly when the content has no space |
| Dispatch.OptionsFor | index.js:17-64 | the `options` object always carries `constants`, and carries `commands` (then the whole registry) exactly when the command is `!help` |
| Dispatch.Handle | index.js:14-70 | the message handler's specification: the outcome is determined by how far the gate chain got, which shows in the trace's length (0 unknown command, 1 binding refused, 2 throttled, 3 handler returned, 4 handler threw); whenever the handler runs, the third event is its call with the outcome's invocation |
| Dispatch.UnknownCommandIsIgnored | index.js:19 | the trace is empty exactly when the command is not a registry key; then the outcome is `Ignored` and the throttle state is unchanged |
| Dispatch.BindingCheckedFirst | index.js:39-43 | the binding service is consulted at most once, as the first event, only for a registered command, with that command's registered `name` and the message |
| Dispatch.ThrottleCheckedAfterBinding | index.js:39-59 | the throttle is consulted exactly when the command is registered and the binding answered true; it is the second event and is keyed by (`boundCommand.commandName`, author username). Otherwise the throttle state is untouched; if it is consulted, the new state is the one the throttle produced |
| Dispatch.HandlerCalledAfterBothGates | index.js:52-65 | the handler is called exactly when both gates pass, then exactly once, as the third event, with the message, the registered command, the remaining tokens and the options object |
| Dispatch.ReplyOnlyOnFault | index.js:61-69 | a reply is sent exactly when the handler threw, then once, as the last event, to the message, with the fixed text; a normal return gets no reply |
| Dispatch.HelpGetsRegistry | index.js:17-64 | whenever the handler runs, `options.constants` is the constants bundle, and `options.commands` is present (and then the whole registry) exactly when the command is `!help` |
| Dispatch.FaultIsolation | index.js:52-69 | whether the handler throws or returns changes neither the throttle state, nor whether the handler runs, nor the gate events before it |
| Dispatch.RegisteredNameIsToken | index.js:11-39 | with the registry from the registration loop, the binding service is asked with the command token itself, and an invoked command's name equals the token, so it contains no upper-case letter and no space (a module whose name has one can never run) |
| Dispatch.HandleIsReplay | index.js:52-53 | handling one message changes the throttle state only through the throttle query recorded in its trace |
| Dispatch.Run | index.js:14-70 | over any sequence of messages handled in arrival order, the final throttle state is the replay of exactly the throttle queries in the combined trace, in order |
| Dispatch.RunAppend | index.js:14-70 | one more message extends a run by exactly that message's handling, from the throttle state the run left: the listener's successive calls compose as `Run` says |
| Dispatch.Throttle.constructor | index.js:7 | a throttle starts in the given state with the given transition |
| Dispatch.Throttle.CanBeExecuted | index.js:52-53 | `canBeExecuted()` for (command name, username) returns the transition's answer and moves the state to the transition's new state |
| Dispatch.Client.constructor | index.js:4-12 | the client's registry is the result of the registration loop over the modules; the log and the list of received messages start empty and the invariant holds |
| Dispatch.Client.HandleMessage | index.js:14-70 | the imperative handler body produces exactly the outcome, trace and throttle state that `Handle` specifies for the old throttle state |
| Dispatch.Client.OnMessage | index.js:14-70 | handling a message keeps the invariants: the registry is keyed by name, and the log and throttle state are what `Run` gives for the messages received so far, so the throttle state is the replay of the logged throttle queries. It appends the message to the received list and its trace to the log; something is recorded exactly when the command is registered, and then the first event asks the binding service with the command token itself |

## Left out

- Discord client creation, `client.login`, the `ready` listener, dotenv and `process.env.TOKEN` (index.js:1-3, 72-78): transport and configuration I/O.
- `console.log` and `console.error` (index.js:62, 67): logging with no effect on the decisions.
- The internals of the channel-binding and command-throttling services (services/channelBindingService and services/commandThrottlingService, loaded at index.js:6-7) are outside the modelled file, so their policies are not modelled: default-deny for unbound commands, membership in a binding set, cooldown windows, atomicity under concurrent messages. Both services are arbitrary oracles.
- A throwing service is not modelled. The binding and throttle calls (index.js:39-40, 52-53) sit outside the `try`, so an exception there would escape the listener with no reply. In the model both oracles are total and always answer.
- `Dispatch.ThrottleCheckedAfterBinding`: does not state that the throttle key equals the registered name. `index.js` passes `boundCommand.commandName`, and how the binding service sets that field is not part of this model.
- The `belongsToThisChannel() === false` and `canBeExecuted() === false` tests are modelled on booleans. A non-boolean answer, which those tests would let through, cannot arise in the model.
- Asynchronous handler failures: the `try`/`catch` at index.js:61-69 catches only synchronous throws, and only those are modelled (`Threw`). A rejected promise from `execute` is not.
- What a command handler does (its own replies, database access) is not modelled; the model records only whether `execute` threw.
- Delivery of `msg.reply` is not modelled. The reply appears as a `Replied` event and in the `Faulted` outcome.
- `Tokenizer.Lower`: models ASCII lower-casing only. JavaScript's `toLowerCase` also maps non-ASCII letters, and Unicode case mapping is out of scope.
- `Tokenizer.LowerChar`: lower-cases only the ASCII letters `A`-`Z`, for the same reason; other letters with a lower-case form are kept as they are.
- `Dispatch.OptionsFor`: `options.commands` (index.js:63) is the live `Discord.Collection`, which keeps insertion order (a `set` on an existing name keeps that name's first position). The model passes the registry as an unordered `map` value, so neither the iteration order nor later mutation of the collection is captured.
- The order of `Object.keys(botCommands)` is taken as the given order of the module sequence. JavaScript's key-ordering rules are not modelled.
- The `CommandWhitelistingService` mentioned at index.js:21-24 does not exist in the source; nothing is modelled for it.
- migrations/20201115230456-create-user.js: a table declaration with no decision logic.
- scripts/countMerge.js: a one-off file-import script whose only computation is embedded in filesystem and database I/O.
