/** `log_to_string`: run a block with a fresh `TeeStringLogger` installed as
    Chef's logger and hand back what it captured. */
module LogCapture {
  import opened Values
  import opened TeeLog

  /** The block given to `log_to_string`: the chunks it writes, in order,
      through whatever logger is installed, and the exception it raises after
      them, if any. */
  datatype Block = Block(writes: seq<string>, raises: Option<Exception>)

  /** What `log_to_string` yields for a block: the block's writes joined in
      order, or the block's exception passed on unchanged. */
  function Capture(block: Block): Result<string> {
    match block.raises
    case None => Success(Concat(block.writes))
    case Some(e) => Failure(e)
  }

  /** Chef's process-wide logging state; only the `Chef::Log.logger` slot
      matters here. */
  class ChefLog {
    var logger: TeeStringLogger?

    constructor (logger: TeeStringLogger?)
      ensures this.logger == logger
    {
      this.logger := logger;
    }
  }

  /** Clear the logger, install a fresh sink, run the block through it, clear
      the logger again and return the sink's text. There is no `ensure`: when
      the block raises, the slot still holds the sink. */
  method LogToString(log: ChefLog, block: Block) returns (r: Result<string>, ghost output: TeeStringLogger)
    modifies log
    ensures fresh(output) && output.Valid()
    ensures output.stdout == block.writes
    ensures r == Capture(block)
    ensures block.raises.None? ==> log.logger == null
    ensures block.raises.Some? ==> log.logger == output
  {
    var sink := new TeeStringLogger();
    output := sink;
    log.logger := null;
    log.logger := sink;
    var i := 0;
    while i < |block.writes|
      invariant 0 <= i <= |block.writes|
      invariant log.logger == sink && sink.Valid()
      invariant sink.stdout == block.writes[..i]
    {
      log.logger.Write(block.writes[i]);
      i := i + 1;
    }
    assert block.writes[..i] == block.writes;
    match block.raises
    case Some(e) =>
      r := Failure(e);
    case None =>
      log.logger := null;
      r := Success(sink.Results());
  }
}
