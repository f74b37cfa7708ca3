/** The renderer's unit of output: a run of cells with one style. */
module WireTypes {

  /** `text` and `url` are sequences of Unicode code points; `fg`, `bg` and `uc`
      are packed RGB values or -1 for the default; `attrs` is a bit mask whose bit
      1024 marks a link the server detected itself. */
  datatype WireRun = WireRun(text: seq<int>, url: seq<int>, fg: int, bg: int, uc: int, attrs: nat)

  type Row = seq<WireRun>
}
