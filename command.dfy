/** The driver command the core fills in: its text and the parameters added to it, in order. */
module Commands {
  import opened Values

  datatype Param = Param(name: string, value: Value)

  /** A snapshot of a command: what the driver would send. */
  datatype CommandState = CommandState(text: string, params: seq<Param>)

  class Command {
    var text: string
    var params: seq<Param>

    constructor (text: string)
      ensures this.text == text && params == []
    {
      this.text := text;
      params := [];
    }

    function State(): CommandState
      reads this
    {
      CommandState(text, params)
    }
  }
}
