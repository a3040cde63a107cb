/** The job handlers of the Chef actor, with Chef itself abstracted: each
    domain step is given by what it did (the exception it raised, the chunks
    it logged, the objects it left behind), and the handler shapes the reply
    the caller receives through `inside_fork`. */
module Handlers {
  import opened Values
  import opened TeeLog
  import opened LogCapture
  import opened Fork

  /** The reply `{ :log => lts, key => v }`. */
  function LoggedReply(lts: string, key: Key, v: Value): Value {
    Hash(map[LogKey := Text(lts), key := v])
  }

  /** The child's work for a handler of the form
      `setup; lts = log_to_string { block }; { :log => lts, key => v }`. */
  function LoggedJob(setup: Option<Exception>, block: Block, key: Key, v: Value): JobRun {
    match setup
    case Some(e) => Raised(e)
    case None =>
      match Capture(block)
      case Failure(e) => Raised(e)
      case Success(lts) => Returned(LoggedReply(lts, key, v))
  }

  /** `collection`: build a node (it may raise), converge the payload's
      resources while capturing the log, and reply with the log and
      `payload[:resource]` (given here as `resource`). */
  function Collection(buildNode: Option<Exception>, converge: Block, resource: Value,
                      dump: Value -> string, load: string -> Value): (r: Outcome)
    ensures RoundTrips(dump, load) && buildNode.Some? ==> r == Raise(buildNode.value)
    ensures RoundTrips(dump, load) && buildNode.None? && converge.raises.Some? ==>
      r == Raise(converge.raises.value)
    ensures RoundTrips(dump, load) && buildNode.None? && converge.raises.None? ==>
      r.Return? && r.value.Hash? && r.value.entries.Keys == {LogKey, ResourceKey} &&
      r.value.entries[LogKey] == Text(Concat(converge.writes)) &&
      r.value.entries[ResourceKey] == resource
  {
    InsideFork(LoggedJob(buildNode, converge, ResourceKey, resource), dump, load)
  }

  /** `resource`: the setup (setting the level to debug, building a node and
      looking up `payload[:resource]`) may raise; then run the resource's
      action while capturing the log, and reply with the log and the resource
      as it stands after its action. */
  function Resource(setup: Option<Exception>, runAction: Block, resource: Value,
                    dump: Value -> string, load: string -> Value): (r: Outcome)
    ensures RoundTrips(dump, load) && setup.Some? ==> r == Raise(setup.value)
    ensures RoundTrips(dump, load) && setup.None? && runAction.raises.Some? ==>
      r == Raise(runAction.raises.value)
    ensures RoundTrips(dump, load) && setup.None? && runAction.raises.None? ==>
      r.Return? && r.value.Hash? && r.value.entries.Keys == {LogKey, ResourceKey} &&
      r.value.entries[LogKey] == Text(Concat(runAction.writes)) &&
      r.value.entries[ResourceKey] == resource
  {
    InsideFork(LoggedJob(setup, runAction, ResourceKey, resource), dump, load)
  }

  /** `recipe`: the setup (writing the payload to a temporary file and setting
      the level to info) may raise; then inside the captured log build a node,
      load and converge the recipe, and reply with the log and the converged
      collection. */
  function Recipe(setup: Option<Exception>, loadAndConverge: Block, collection: Value,
                  dump: Value -> string, load: string -> Value): (r: Outcome)
    ensures RoundTrips(dump, load) && setup.Some? ==> r == Raise(setup.value)
    ensures RoundTrips(dump, load) && setup.None? && loadAndConverge.raises.Some? ==>
      r == Raise(loadAndConverge.raises.value)
    ensures RoundTrips(dump, load) && setup.None? && loadAndConverge.raises.None? ==>
      r.Return? && r.value.Hash? && r.value.entries.Keys == {LogKey, ResourcesKey} &&
      r.value.entries[LogKey] == Text(Concat(loadAndConverge.writes)) &&
      r.value.entries[ResourcesKey] == collection
  {
    InsideFork(LoggedJob(setup, loadAndConverge, ResourcesKey, collection), dump, load)
  }

  /** check_recipe's `recipe.collection.each { |r| ra << r }`: a copy of the
      collection in iteration order. */
  method CopyCollection(collection: seq<Value>) returns (ra: seq<Value>)
    ensures |ra| == |collection|
    ensures forall i :: 0 <= i < |ra| ==> ra[i] == collection[i]
  {
    ra := [];
    for i := 0 to |collection|
      invariant ra == collection[..i]
    {
      ra := ra + [collection[i]];
    }
  }

  /** `check_recipe`: build a node, write the payload to a temporary file and
      load it as a recipe without converging (any of which may raise), and
      reply with the declared resources only; no log is captured. The reply's
      `List(collection)` is the array `ra` that `CopyCollection` builds and
      proves equal to the collection, element by element in order. */
  function CheckRecipe(setup: Option<Exception>, collection: seq<Value>,
                       dump: Value -> string, load: string -> Value): (r: Outcome)
    ensures RoundTrips(dump, load) && setup.Some? ==> r == Raise(setup.value)
    ensures RoundTrips(dump, load) && setup.None? ==>
      r.Return? && r.value.Hash? && r.value.entries.Keys == {ResourcesKey} &&
      r.value.entries[ResourcesKey] == List(collection)
  {
    var run := match setup
      case Some(e) => Raised(e)
      case None => Returned(Hash(map[ResourcesKey := List(collection)]));
    InsideFork(run, dump, load)
  }

  /** What `Chef::Log.level(sym)` did: set the level, or raise. */
  datatype LevelCall = LevelSet(level: string) | LevelRaised(error: Exception)

  /** The `:log_level` value the guard acts on: present only for a payload
      that is not nil and holds a truthy `:log_level`. */
  function RequestedLevel(payload: Option<map<Key, Value>>): Option<Value> {
    if payload.None? || LogLevelKey !in payload.value || !Truthy(payload.value[LogLevelKey]) then None
    else Some(payload.value[LogLevelKey])
  }

  /** The level name `to_sym` gives for the requested value, when it has one. */
  function RequestedName(payload: Option<map<Key, Value>>): Option<string> {
    match RequestedLevel(payload)
    case Some(Text(s)) => Some(s)
    case Some(Sym(n)) => Some(n)
    case _ => None
  }

  /** converge's guard
      `if payload && payload[:log_level] then (Chef::Log.level(payload[:log_level].to_sym) rescue ArgumentError)`.
      A nil payload or a falsy `:log_level` leaves the level alone; a
      StandardError from `to_sym` or from setting the level is swallowed and
      leaves the level alone; anything else escapes. */
  function ConvergeLevel(payload: Option<map<Key, Value>>, current: string,
                         setLevel: string -> LevelCall): (r: Result<string>)
    ensures payload.None? ==> r == Success(current)
    ensures payload.Some? && (LogLevelKey !in payload.value || !Truthy(payload.value[LogLevelKey])) ==>
      r == Success(current)
    ensures r.Failure? ==> !r.error.cls.isStandardError
    ensures RequestedLevel(payload).Some? && !(RequestedLevel(payload).value.Text? || RequestedLevel(payload).value.Sym?) ==>
      r == Success(current)
    ensures RequestedName(payload).Some? && setLevel(RequestedName(payload).value).LevelSet? ==>
      r == Success(setLevel(RequestedName(payload).value).level)
    ensures RequestedName(payload).Some? && setLevel(RequestedName(payload).value).LevelRaised? ==>
      var e := setLevel(RequestedName(payload).value).error;
      r == (if e.cls.isStandardError then Success(current) else Failure(e))
  {
    if payload.None? || LogLevelKey !in payload.value || !Truthy(payload.value[LogLevelKey]) then
      Success(current)
    else
      var requested := payload.value[LogLevelKey];
      if !(requested.Text? || requested.Sym?) then
        // `to_sym` is undefined here: the NoMethodError is a StandardError
        Success(current)
      else
        var name := if requested.Text? then requested.s else requested.name;
        match setLevel(name)
        case LevelSet(l) => Success(l)
        case LevelRaised(e) => if e.cls.isStandardError then Success(current) else Failure(e)
  }

  /** `converge`: inside the captured log, apply the guard and run the client;
      the reply is the log text itself. */
  function Converge(payload: Option<map<Key, Value>>, current: string, setLevel: string -> LevelCall,
                    run: Block, dump: Value -> string, load: string -> Value): (r: Outcome)
    ensures RoundTrips(dump, load) && ConvergeLevel(payload, current, setLevel).Failure? ==>
      r == Raise(ConvergeLevel(payload, current, setLevel).error)
    ensures RoundTrips(dump, load) && ConvergeLevel(payload, current, setLevel).Success? ==>
      r == (if run.raises.Some? then Raise(run.raises.value) else Return(Text(Concat(run.writes))))
  {
    var job := match ConvergeLevel(payload, current, setLevel)
      case Failure(e) => Raised(e)
      case Success(_) =>
        match Capture(run)
        case Failure(e) => Raised(e)
        case Success(lts) => Returned(Text(lts));
    InsideFork(job, dump, load)
  }
}
