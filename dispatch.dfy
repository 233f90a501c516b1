/**
 * The `message` handler of the bot client: tokenize, look the command up in
 * the registry, ask the channel-binding service, ask the throttling service,
 * then run the command's `execute` inside a failure boundary.
 *
 * The two services are abstract: the binding service is a function of the
 * message and the registered name, and the throttle is an object whose
 * `CanBeExecuted` answers and updates its own state through a transition
 * function. Neither cooldown arithmetic nor a default binding policy is assumed.
 */
module Dispatch {
  import opened Tokenizer
  import opened Registry

  datatype Option<T> = None | Some(value: T)

  /** The parts of a chat message the dispatcher reads: its text, its channel and `author.username`. */
  datatype Message = Message(content: string, channelId: string, username: string)

  /** A channel-binding service object: its `commandName` and the answer of `belongsToThisChannel()`. */
  datatype BoundCommand = BoundCommand(commandName: string, belongs: bool)

  /** The `options` object handed to `execute`: `commands` is present only for the help command. */
  datatype Options<C> = Options(commands: Option<map<string, Command>>, constants: C)

  /** One call `execute(msg, args, options)` of a registered command. */
  datatype Invocation<C> = Invocation(command: Command, args: seq<string>, options: Options<C>)

  /** Whether `execute` returned normally or threw synchronously. */
  datatype HandlerResult = Returned | Threw

  /** What the dispatcher does that can be observed from outside, in order. */
  datatype Event<C> =
    | BindingChecked(message: Message, name: string)
    | ThrottleChecked(commandName: string, username: string)
    | HandlerCalled(message: Message, invocation: Invocation<C>)
    | Replied(message: Message, text: string)

  /** Where the processing of one message ended. */
  datatype Outcome<C> =
    | Ignored
    | BindingRejected
    | Throttled
    | Completed(invocation: Invocation<C>)
    | Faulted(invocation: Invocation<C>, reply: string)

  /** The result of handling one message: the outcome, the throttle's new state and the events in order. */
  datatype Reaction<S, C> = Reaction(outcome: Outcome<C>, throttleState: S, trace: seq<Event<C>>)

  /**
   * Everything the handler reads besides the throttle: the registry, the shared
   * constants, the binding service and the behaviour of the command handlers.
   */
  datatype Env<!C> = Env(
    commands: map<string, Command>,
    constants: C,
    binding: (Message, string) -> BoundCommand,
    execute: (Message, Invocation<C>) -> HandlerResult)

  const FaultReply: string := "Something broke and that last command did not work."
  const HelpCommand: string := "!help"

  /** The command: the first token of the content, lower-cased. */
  function CommandToken(content: string): (t: string)
    ensures ' ' !in t
    ensures forall k :: 0 <= k < |t| ==> !IsUpper(t[k])
  {
    var first := Split(content)[0];
    LowerKeepsSpaces(first);
    var t := Lower(first);
    assert ' ' !in t by {
      forall k | 0 <= k < |t| ensures t[k] != ' ' {
        assert first[k] in first;
      }
    }
    t
  }

  /**
   * The arguments: what is left of the tokens after the first is shifted off.
   * The first token followed by the arguments is the whole token list, in order;
   * no argument holds a space, only the last may be empty, and there are none
   * exactly when the content holds no space.
   */
  function Arguments(content: string): (r: seq<string>)
    ensures [Split(content)[0]] + r == Split(content)
    ensures forall k :: 0 <= k < |r| ==> ' ' !in r[k]
    ensures forall k :: 0 <= k < |r| - 1 ==> r[k] != ""
    ensures r == [] <==> ' ' !in content
  {
    SingleToken(content);
    Split(content)[1..]
  }

  /** The `options` object: `commands` only for "!help", `constants` always. */
  function OptionsFor<C>(command: string, commands: map<string, Command>, constants: C): (r: Options<C>)
    ensures r.constants == constants
    ensures r.commands.Some? <==> command == HelpCommand
    ensures r.commands.Some? ==> r.commands.value == commands
  {
    Options(if command == HelpCommand then Some(commands) else None, constants)
  }

  /** The command token of the message is a registry key. */
  predicate Registered<C>(env: Env<C>, msg: Message)
  {
    CommandToken(msg.content) in env.commands
  }

  /** The binding service object for a registered command. */
  function Bound<C>(env: Env<C>, msg: Message): BoundCommand
    requires Registered(env, msg)
  {
    env.binding(msg, env.commands[CommandToken(msg.content)].name)
  }

  /**
   * Specification of the `message` handler: the gate chain with its early exits.
   * Each exit leaves a trace of its own length: nothing when the command is
   * unknown, one event when the binding refuses, two when the throttle refuses,
   * three when the handler returns and four when it throws; whenever the handler
   * runs, the third event is its call with the outcome's invocation.
   */
  function Handle<S, C>(env: Env<C>, step: (S, string, string) -> (bool, S), s: S, msg: Message): (r: Reaction<S, C>)
    ensures r.outcome.Ignored? <==> |r.trace| == 0
    ensures r.outcome.BindingRejected? <==> |r.trace| == 1
    ensures r.outcome.Throttled? <==> |r.trace| == 2
    ensures r.outcome.Completed? <==> |r.trace| == 3
    ensures r.outcome.Faulted? <==> |r.trace| == 4
    ensures (r.outcome.Completed? || r.outcome.Faulted?) ==> r.trace[2] == HandlerCalled(msg, r.outcome.invocation)
  {
    var command := CommandToken(msg.content);
    if command !in env.commands then Reaction(Ignored, s, [])
    else
      var name := env.commands[command].name;
      var bound := env.binding(msg, name);
      var gate1 := [BindingChecked(msg, name)];
      if !bound.belongs then Reaction(BindingRejected, s, gate1)
      else
        var answer := step(s, bound.commandName, msg.username);
        var gate2 := gate1 + [ThrottleChecked(bound.commandName, msg.username)];
        if !answer.0 then Reaction(Throttled, answer.1, gate2)
        else
          var call := Invocation(env.commands[command], Arguments(msg.content),
                                 OptionsFor(command, env.commands, env.constants));
          var run := gate2 + [HandlerCalled(msg, call)];
          match env.execute(msg, call)
          case Returned => Reaction(Completed(call), answer.1, run)
          case Threw => Reaction(Faulted(call, FaultReply), answer.1, run + [Replied(msg, FaultReply)])
  }

  /** An unregistered command token ends processing with no gate, no handler and no reply. */
  lemma UnknownCommandIsIgnored<S, C>(env: Env<C>, step: (S, string, string) -> (bool, S), s: S, msg: Message)
    ensures var r := Handle(env, step, s, msg);
      (CommandToken(msg.content) !in env.commands <==> r.trace == [])
      && (CommandToken(msg.content) !in env.commands ==> r.outcome.Ignored? && r.throttleState == s)
  {
  }

  /** The binding service is asked first, once, only for registered commands, with the registered command's name. */
  lemma BindingCheckedFirst<S, C>(env: Env<C>, step: (S, string, string) -> (bool, S), s: S, msg: Message)
    ensures var r := Handle(env, step, s, msg);
      var command := CommandToken(msg.content);
      && (forall i :: 0 <= i < |r.trace| && r.trace[i].BindingChecked? ==>
            i == 0 && command in env.commands && r.trace[i] == BindingChecked(msg, env.commands[command].name))
      && (command in env.commands ==> |r.trace| >= 1 && r.trace[0] == BindingChecked(msg, env.commands[command].name))
  {
  }

  /**
   * The throttle is asked only after the binding passed, keyed by the binding
   * object's `commandName` and the author's username; until then its state is untouched.
   */
  lemma ThrottleCheckedAfterBinding<S, C>(env: Env<C>, step: (S, string, string) -> (bool, S), s: S, msg: Message)
    ensures var r := Handle(env, step, s, msg);
      var passed := Registered(env, msg) && Bound(env, msg).belongs;
      && (forall i :: 0 <= i < |r.trace| && r.trace[i].ThrottleChecked? ==>
            i == 1 && passed && r.trace[i] == ThrottleChecked(Bound(env, msg).commandName, msg.username))
      && (passed <==> exists i :: 0 <= i < |r.trace| && r.trace[i].ThrottleChecked?)
      && (!passed ==> r.throttleState == s)
      && (passed ==> r.throttleState == step(s, Bound(env, msg).commandName, msg.username).1)
  {
    var r := Handle(env, step, s, msg);
    if Registered(env, msg) && Bound(env, msg).belongs {
      assert r.trace[1].ThrottleChecked?;
    }
  }

  /**
   * The handler runs only when both gates passed, exactly once, with the message,
   * the registered command, the remaining tokens and the options object.
   */
  lemma HandlerCalledAfterBothGates<S, C>(env: Env<C>, step: (S, string, string) -> (bool, S), s: S, msg: Message)
    ensures var r := Handle(env, step, s, msg);
      var command := CommandToken(msg.content);
      var passed := Registered(env, msg) && Bound(env, msg).belongs
                    && step(s, Bound(env, msg).commandName, msg.username).0;
      && (forall i :: 0 <= i < |r.trace| && r.trace[i].HandlerCalled? ==>
            i == 2 && passed
            && r.trace[i] == HandlerCalled(msg, Invocation(env.commands[command], Arguments(msg.content),
                                                           OptionsFor(command, env.commands, env.constants))))
      && (passed <==> exists i :: 0 <= i < |r.trace| && r.trace[i].HandlerCalled?)
      && (passed <==> (r.outcome.Completed? || r.outcome.Faulted?))
  {
    var r := Handle(env, step, s, msg);
    if Registered(env, msg) && Bound(env, msg).belongs && step(s, Bound(env, msg).commandName, msg.username).0 {
      assert r.trace[2].HandlerCalled?;
    }
  }

  /**
   * The dispatcher replies only when the handler threw, then exactly once, to the
   * message, with the fixed text, as the last event; a normal return gets no reply.
   */
  lemma ReplyOnlyOnFault<S, C>(env: Env<C>, step: (S, string, string) -> (bool, S), s: S, msg: Message)
    ensures var r := Handle(env, step, s, msg);
      && (r.outcome.Faulted? <==> exists i :: 0 <= i < |r.trace| && r.trace[i].Replied?)
      && (forall i :: 0 <= i < |r.trace| && r.trace[i].Replied? ==>
            i == |r.trace| - 1 == 3 && r.trace[i] == Replied(msg, FaultReply))
      && (r.outcome.Faulted? ==> r.outcome.reply == FaultReply && env.execute(msg, r.outcome.invocation) == Threw)
      && (r.outcome.Completed? ==> env.execute(msg, r.outcome.invocation) == Returned)
  {
    var r := Handle(env, step, s, msg);
    if r.outcome.Faulted? {
      assert r.trace[3].Replied?;
    }
  }

  /** `options.constants` is always set; `options.commands` is the registry exactly when the command is "!help". */
  lemma HelpGetsRegistry<S, C>(env: Env<C>, step: (S, string, string) -> (bool, S), s: S, msg: Message)
    ensures var r := Handle(env, step, s, msg);
      (r.outcome.Completed? || r.outcome.Faulted?) ==>
        var opts := r.outcome.invocation.options;
        && opts.constants == env.constants
        && (opts.commands.Some? <==> CommandToken(msg.content) == HelpCommand)
        && (opts.commands.Some? ==> opts.commands.value == env.commands)
  {
  }

  /** A fault in the handler changes neither the gates' answers nor the throttle state. */
  lemma FaultIsolation<S, C>(env: Env<C>, other: (Message, Invocation<C>) -> HandlerResult,
                             step: (S, string, string) -> (bool, S), s: S, msg: Message)
    ensures var r1 := Handle(env, step, s, msg);
      var r2 := Handle(env.(execute := other), step, s, msg);
      && r1.throttleState == r2.throttleState
      && (r1.outcome.Completed? || r1.outcome.Faulted?) == (r2.outcome.Completed? || r2.outcome.Faulted?)
      && r1.trace[..if |r1.trace| < 3 then |r1.trace| else 3] == r2.trace[..if |r2.trace| < 3 then |r2.trace| else 3]
  {
  }

  /**
   * With the registry built by the registration loop, the binding service is asked
   * with the command token itself, and only commands whose name has no upper-case
   * letter and no space can ever be invoked.
   */
  lemma RegisteredNameIsToken<S, C>(modules: seq<Command>, env: Env<C>,
                                    step: (S, string, string) -> (bool, S), s: S, msg: Message)
    requires env.commands == RegistryOf(modules)
    ensures var r := Handle(env, step, s, msg);
      var command := CommandToken(msg.content);
      && (command in env.commands ==> r.trace[0] == BindingChecked(msg, command))
      && ((r.outcome.Completed? || r.outcome.Faulted?) ==>
            var name := r.outcome.invocation.command.name;
            name == command && r.outcome.invocation.command in modules
            && ' ' !in name && forall k :: 0 <= k < |name| ==> !IsUpper(name[k]))
  {
  }

  /** The throttle keys that a trace asks about, in order. */
  function ThrottleQueries<C>(trace: seq<Event<C>>): seq<(string, string)>
  {
    if trace == [] then []
    else
      (if trace[0].ThrottleChecked? then [(trace[0].commandName, trace[0].username)] else [])
      + ThrottleQueries(trace[1..])
  }

  /** The throttle state after answering the given queries in order. */
  function Replay<S>(step: (S, string, string) -> (bool, S), s: S, queries: seq<(string, string)>): S
    decreases |queries|
  {
    if queries == [] then s else Replay(step, step(s, queries[0].0, queries[0].1).1, queries[1..])
  }

  lemma {:induction false} ThrottleQueriesAppend<C>(a: seq<Event<C>>, b: seq<Event<C>>)
    ensures ThrottleQueries(a + b) == ThrottleQueries(a) + ThrottleQueries(b)
    decreases |a|
  {
    if a == [] {
      assert a + b == b;
    } else {
      assert (a + b)[0] == a[0];
      assert (a + b)[1..] == a[1..] + b;
      ThrottleQueriesAppend(a[1..], b);
    }
  }

  lemma {:induction false} ReplayAppend<S>(step: (S, string, string) -> (bool, S), s: S,
                                           a: seq<(string, string)>, b: seq<(string, string)>)
    ensures Replay(step, s, a + b) == Replay(step, Replay(step, s, a), b)
    decreases |a|
  {
    if a == [] {
      assert a + b == b;
    } else {
      assert (a + b)[0] == a[0];
      assert (a + b)[1..] == a[1..] + b;
      ReplayAppend(step, step(s, a[0].0, a[0].1).1, a[1..], b);
    }
  }

  lemma {:induction false} ThrottleQueriesNone<C>(t: seq<Event<C>>)
    requires forall i :: 0 <= i < |t| ==> !t[i].ThrottleChecked?
    ensures ThrottleQueries(t) == []
    decreases |t|
  {
    if t != [] {
      ThrottleQueriesNone(t[1..]);
    }
  }

  lemma ThrottleQueriesCons<C>(e: Event<C>, rest: seq<Event<C>>)
    ensures ThrottleQueries([e] + rest)
         == (if e.ThrottleChecked? then [(e.commandName, e.username)] else []) + ThrottleQueries(rest)
  {
    assert ([e] + rest)[1..] == rest;
  }

  /** A trace that starts with a binding event and a throttle event records exactly that one throttle query. */
  lemma ThrottleQueriesOfGates<C>(b: Event<C>, k: string, u: string, rest: seq<Event<C>>)
    requires !b.ThrottleChecked?
    requires forall i :: 0 <= i < |rest| ==> !rest[i].ThrottleChecked?
    ensures ThrottleQueries([b, ThrottleChecked(k, u)] + rest) == [(k, u)]
  {
    var tail := [ThrottleChecked(k, u)] + rest;
    assert [b, ThrottleChecked(k, u)] + rest == [b] + tail;
    ThrottleQueriesCons(b, tail);
    ThrottleQueriesCons(ThrottleChecked(k, u), rest);
    ThrottleQueriesNone(rest);
  }

  /** One message changes the throttle state only through the throttle queries it records. */
  lemma HandleIsReplay<S, C>(env: Env<C>, step: (S, string, string) -> (bool, S), s: S, msg: Message)
    ensures var r := Handle(env, step, s, msg);
      r.throttleState == Replay(step, s, ThrottleQueries(r.trace))
  {
    var r := Handle(env, step, s, msg);
    if !Registered(env, msg) || !Bound(env, msg).belongs {
      ThrottleQueriesNone(r.trace);
    } else {
      var name := env.commands[CommandToken(msg.content)].name;
      var key := Bound(env, msg).commandName;
      var rest := r.trace[2..];
      assert r.trace == [BindingChecked(msg, name), ThrottleChecked(key, msg.username)] + rest;
      ThrottleQueriesOfGates(BindingChecked(msg, name), key, msg.username, rest);
    }
  }

  /**
   * The handler for a run of messages, one after the other in arrival order, with
   * the throttle state threaded through. The final throttle state is the replay,
   * from the initial state, of exactly the throttle queries in the combined trace.
   */
  function Run<S, C>(env: Env<C>, step: (S, string, string) -> (bool, S), s: S, msgs: seq<Message>): (r: (S, seq<Event<C>>))
    ensures r.0 == Replay(step, s, ThrottleQueries(r.1))
    decreases |msgs|
  {
    if msgs == [] then (s, [])
    else
      var earlier := Run(env, step, s, msgs[..|msgs| - 1]);
      var last := Handle(env, step, earlier.0, msgs[|msgs| - 1]);
      HandleIsReplay(env, step, earlier.0, msgs[|msgs| - 1]);
      ThrottleQueriesAppend(earlier.1, last.trace);
      ReplayAppend(step, s, ThrottleQueries(earlier.1), ThrottleQueries(last.trace));
      (last.throttleState, earlier.1 + last.trace)
  }

  /** Handling one more message extends a run by exactly that message's `Handle`, from the state the run left. */
  lemma RunAppend<S, C>(env: Env<C>, step: (S, string, string) -> (bool, S), s: S, msgs: seq<Message>, msg: Message)
    ensures var r := Run(env, step, s, msgs);
      var h := Handle(env, step, r.0, msg);
      Run(env, step, s, msgs + [msg]) == (h.throttleState, r.1 + h.trace)
  {
    assert (msgs + [msg])[..|msgs|] == msgs;
  }

  /**
   * The command-throttling service. How it decides is not part of this model:
   * `step` maps its state and a (command name, username) key to an answer and a new state.
   */
  class Throttle<S> {
    var state: S
    const step: (S, string, string) -> (bool, S)

    constructor (initial: S, step: (S, string, string) -> (bool, S))
      ensures state == initial && this.step == step
    {
      state := initial;
      this.step := step;
    }

    /** `canBeExecuted()` for the key (commandName, username): answers and may change the state. */
    method CanBeExecuted(commandName: string, username: string) returns (allowed: bool)
      modifies this
      ensures allowed == step(old(state), commandName, username).0
      ensures state == step(old(state), commandName, username).1
    {
      var answer := step(state, commandName, username);
      allowed := answer.0;
      state := answer.1;
    }
  }

  /** The bot client: its registry, the services it asks, and a ghost log of everything it did. */
  class Client<S, C> {
    const commands: map<string, Command>
    const constants: C
    const binding: (Message, string) -> BoundCommand
    const execute: (Message, Invocation<C>) -> HandlerResult
    const throttle: Throttle<S>
    ghost const initialThrottle: S
    ghost var log: seq<Event<C>>
    ghost var received: seq<Message>

    /**
     * Every command sits under its name; the log and the throttle state are what
     * `Run` gives for the messages received so far, so the throttle has seen
     * exactly the queries in the log.
     */
    ghost predicate Valid()
      reads this, throttle
    {
      && KeyedByName(commands)
      && Run(Env(commands, constants, binding, execute), throttle.step, initialThrottle, received) == (throttle.state, log)
      && throttle.state == Replay(throttle.step, initialThrottle, ThrottleQueries(log))
    }

    /** Builds the registry from the command modules and attaches the services. */
    constructor (modules: seq<Command>, constants: C, binding: (Message, string) -> BoundCommand,
                 execute: (Message, Invocation<C>) -> HandlerResult, throttle: Throttle<S>)
      ensures Valid()
      ensures commands == RegistryOf(modules) && this.constants == constants
      ensures this.binding == binding && this.execute == execute && this.throttle == throttle
      ensures initialThrottle == throttle.state && log == [] && received == []
    {
      var registry := BuildRegistry(modules);
      this.commands := registry;
      this.constants := constants;
      this.binding := binding;
      this.execute := execute;
      this.throttle := throttle;
      initialThrottle := throttle.state;
      log := [];
      received := [];
    }

    /** The `message` listener: handles the message and records what it did in the log. */
    method OnMessage(msg: Message) returns (outcome: Outcome<C>, ghost trace: seq<Event<C>>)
      requires Valid()
      modifies throttle, this`log, this`received
      ensures Valid()
      ensures var r := Handle(Env(commands, constants, binding, execute), throttle.step, old(throttle.state), msg);
        outcome == r.outcome && trace == r.trace && throttle.state == r.throttleState
      ensures log == old(log) + trace
      ensures received == old(received) + [msg]
      ensures trace != [] <==> CommandToken(msg.content) in commands
      ensures trace != [] ==> trace[0] == BindingChecked(msg, CommandToken(msg.content))
    {
      ghost var env := Env(commands, constants, binding, execute);
      RunAppend(env, throttle.step, initialThrottle, received, msg);
      outcome, trace := HandleMessage(msg);
      log := log + trace;
      received := received + [msg];
    }

    /** The body of the `message` handler: tokenizes, passes the gates in order and runs the command. */
    method HandleMessage(msg: Message) returns (outcome: Outcome<C>, ghost trace: seq<Event<C>>)
      modifies throttle
      ensures var r := Handle(Env(commands, constants, binding, execute), throttle.step, old(throttle.state), msg);
        outcome == r.outcome && trace == r.trace && throttle.state == r.throttleState
    {
      var args := Split(msg.content);
      var command := Lower(args[0]);
      args := args[1..];
      trace := [];

      if command !in commands {
        outcome := Ignored;
        return;
      }

      var name := commands[command].name;
      var boundCommand := binding(msg, name);
      trace := trace + [BindingChecked(msg, name)];
      if !boundCommand.belongs {
        outcome := BindingRejected;
        return;
      }

      var allowed := throttle.CanBeExecuted(boundCommand.commandName, msg.username);
      trace := trace + [ThrottleChecked(boundCommand.commandName, msg.username)];
      if !allowed {
        outcome := Throttled;
        return;
      }

      var helpCommands: Option<map<string, Command>> := None;
      if command == HelpCommand {
        helpCommands := Some(commands);
      }
      var options := Options(helpCommands, constants);
      var invocation := Invocation(commands[command], args, options);
      trace := trace + [HandlerCalled(msg, invocation)];
      var result := execute(msg, invocation);
      if result == Threw {
        outcome := Faulted(invocation, FaultReply);
        trace := trace + [Replied(msg, FaultReply)];
      } else {
        outcome := Completed(invocation);
      }
    }
  }
}
