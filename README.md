# Chef actor: log capture and forked execution

A model of the core of `Opscode::ChefActor`, a Nanite actor that runs Chef jobs
(converge a resource collection, run one resource, load or converge a recipe,
run a full client) in a forked child process and sends the captured log and
resulting resources back to the caller.

- `TeeLog` models `TeeStringLogger`. It is a class with two fields: the chunks
  forwarded to standard output (`stdout`) and the StringIO text (`buffer`). Its
  invariant `Valid()` says the buffer is the in-order join of exactly the chunks
  sent to standard output. `Write`, `Close` and `Results` keep that invariant.
  The `Concat` lemmas show that buffered text is only ever extended.
- `LogCapture` models `log_to_string`. The global `Chef::Log.logger` slot is a
  field of class `ChefLog`. The block is a `Block`: the chunks it logs, in order,
  and the exception it may raise after them. `LogToString` runs the block's
  writes through the installed sink. It returns the block's text, or the
  block's exception unchanged. It says what the slot holds afterwards: `nil` on
  normal completion, and still the sink when the block raised, because the
  source has no `ensure`.
- `Fork` models the outcome logic of `inside_fork`. `ChildValue` folds the job's
  return or exception into one value. `ParentOutcome` raises that value if it
  is an exception object and returns it otherwise. `InsideFork` composes the two
  across a transport (`dump`, `load`) that is a parameter. The round trip is a
  hypothesis, `RoundTrips`, of the lemmas.
- `Handlers` models the five handlers as functions from what the opaque Chef
  steps did to what the caller receives.

Behaviour of `lib/opscode/actors/chef_actor.rb` worth noting:

- `converge` replies with the captured log string itself; the other handlers
  that capture a log reply with a hash.
- The logger slot is not reset when the block raises.
- A child that dies before writing its result gets no outcome of its own: the
  parent decodes whatever it read.
- The `rescue` modifier on line 168 catches every StandardError (the
  `ArgumentError` after it is the value the expression yields, not a filter).
  It also covers `to_sym`, but not the `payload[:log_level]` lookup in the `if`.
- `log_to_string` never calls `close`, so captured logs do not end with
  `--- LOG CLOSED`.

## Model

| member | source | states |
|---|---|---|
| `TeeLog.ConcatAppend` | lib/opscode/actors/chef_actor.rb:49-52 | one more write extends the buffered text by exactly that chunk |
| `TeeLog.ConcatSplit` | lib/opscode/actors/chef_actor.rb:49-52 | the text of two runs of writes is the text of each, end to end |
| `TeeLog.ConcatPrefix` | lib/opscode/actors/chef_actor.rb:58-60 | the text `results` gives at any point is a prefix of what it gives later; buffered text is never changed |
| `TeeLog.TeeStringLogger.constructor` | lib/opscode/actors/chef_actor.rb:45-47 | a new sink has an empty buffer and has forwarded nothing |
| `TeeLog.TeeStringLogger.Write` | lib/opscode/actors/chef_actor.rb:49-52 | the same chunk is appended to standard output and to the buffer, and both still hold the same chunks in the same order |
| `TeeLog.TeeStringLogger.Close` | lib/opscode/actors/chef_actor.rb:54-56 | closing is one write of `--- LOG CLOSED`, so the buffer becomes the prior text followed by the sentinel |
| `TeeLog.TeeStringLogger.Results` | lib/opscode/actors/chef_actor.rb:58-60 | reads only, and gives the concatenation of every chunk written, in write order |
| `LogCapture.LogToString` | lib/opscode/actors/chef_actor.rb:63-70 | a fresh sink receives exactly the block's writes; the result is those writes and no earlier output; the slot is nil after normal completion and still holds the sink after a raise |
| `Fork.InsideFork` | lib/opscode/actors/chef_actor.rb:72-96 | the caller is never handed an exception object as a return value, whatever the transport does |
| `Fork.ReturnedValueDelivered` | lib/opscode/actors/chef_actor.rb:77-78 | with a transport that round-trips, a returned non-exception value reaches the caller unchanged |
| `Fork.RaisedReraised` | lib/opscode/actors/chef_actor.rb:79-81 | with a transport that round-trips, an exception the job raises is raised in the caller |
| `Fork.ReturnedExceptionRaised` | lib/opscode/actors/chef_actor.rb:91-92 | a job that returns an exception object has it raised in the caller, not returned |
| `Fork.ForkMatchesDirect` | lib/opscode/actors/chef_actor.rb:72-96 | running in the fork gives the same outcome as calling the job in process if and only if the job does not return an exception object |
| `Handlers.Collection` | lib/opscode/actors/chef_actor.rb:99-110 | a node-building or convergence failure is raised to the caller; otherwise the reply has exactly the keys `:log` (the captured writes) and `:resource` (`payload[:resource]`) |
| `Handlers.Resource` | lib/opscode/actors/chef_actor.rb:112-123 | a failure in the setup (setting the debug level, building a node, looking up `payload[:resource]`) or in the action is raised; otherwise the reply has exactly `:log` (the captured writes) and `:resource` |
| `Handlers.Recipe` | lib/opscode/actors/chef_actor.rb:143-162 | a failure in the setup (writing the temporary file, setting the info level) or while loading and converging is raised; otherwise the reply has exactly `:log` and `:resources` (the converged collection) |
| `Handlers.CopyCollection` | lib/opscode/actors/chef_actor.rb:137-138 | the copied array has the collection's elements in iteration order |
| `Handlers.CheckRecipe` | lib/opscode/actors/chef_actor.rb:125-141 | a setup or load failure is raised; otherwise the reply has exactly the key `:resources`, holding the collection; no log is captured |
| `Handlers.ConvergeLevel` | lib/opscode/actors/chef_actor.rb:167-168 | a nil payload, a missing or falsy `:log_level`, or a value with no `to_sym` leaves the level untouched; for a string or symbol, the level becomes what setting that name gave, a StandardError from setting it is swallowed, and any other exception escapes |
| `Handlers.Converge` | lib/opscode/actors/chef_actor.rb:164-174 | an exception escaping the level guard or the client run is raised; otherwise the reply is the captured log text itself |

## Left out

- Process plumbing: `fork`, `IO.pipe`, `Process.wait2` and `exit!` are not modelled. The model does not capture isolation, concurrency or reaping the child.
- The Marshal and Base64 transport is left out. It is a pair of function parameters, and the fork lemmas assume as a hypothesis that it round-trips. A value Marshal cannot dump is not modelled. Such a value raises outside the child's `rescue`, so the parent reads empty data.
- Chef domain calls are not modelled: `build_node`, `Runner#converge`, `Recipe#from_file`, `run_action`, `Client#run`, and `Chef::Log.level` and `init`. The model takes only what they did: an exception, the logged chunks, the resulting objects, and the result of setting a level.
- Formatting is not modelled. `Chef::Log.init` wraps the sink in a Ruby Logger. The block's writes are the chunks that Logger hands to the sink.
- Temporary-file creation and writing are not modelled. This is filesystem I/O; its only effect here is the exception it may raise.
- The `File.read` patch using `Thread.exclusive` is not modelled. It is a workaround for an event-loop interaction.
- The Nanite `expose` registration is not modelled. It is message-bus transport.
- The `instance_variable_set(:@node, ...)` calls are not modelled. They mutate opaque domain objects.
- Standard output is modelled per sink, as the chunks that sink forwarded. Output from other writers to the same process-wide stream is not modelled. If `STDOUT.write` raises, the chunk never reaches the buffer, because that write comes first. The model has no failing standard output.
- `Handlers.ConvergeLevel`: the payload is nil or a Hash. For any other payload, the `payload[:log_level]` lookup itself may raise, and that is not modelled.
- `Handlers.Collection`: `payload[:resource]` is taken as an already evaluated value. What indexing a resource collection with a symbol does is Chef's behaviour and is not modelled.
- TeeLog.TeeStringLogger.Results: returns a value snapshot of the buffer. In Ruby, `@buffer.string` is the StringIO's own live String, so later writes grow a string already handed out, and a caller that edits it edits the buffer. This aliasing is not modelled. `log_to_string` calls `results` once, after the last write, and then drops the sink, so nothing here observes the difference.
