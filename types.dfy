/** The values the scheduler passes around: notebook documents and log records. */
module Types {

  /** One cell: its source text and the outputs the engine attaches to it. */
  datatype Cell = Cell(source: string, outputs: seq<string>)

  /** A notebook document: its cells, in order, and its metadata. */
  datatype Notebook = Notebook(cells: seq<Cell>, metadata: map<string, string>)

  /** The two severities the scheduler logs with. */
  datatype Level = Info | Error

  /** One record handed to the process-wide logger. */
  datatype LogLine = LogLine(level: Level, text: string)
}
