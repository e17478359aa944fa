/** Instruction blocks: the script tree a sprite runs. */
module Script {

  datatype Option<+T> = None | Some(value: T)

  /** The palette category a block was authored under. Only `Motion` is
      singled out, by the collision swap. `OtherCategory` carries any label
      other than `motion`, `looks` and `control`; a block labelled `motion` is
      always `Motion`. */
  datatype Category = Motion | Looks | Control | OtherCategory(name: string)

  /** A block's `type` tag together with its `params`. An unrecognised tag is
      kept as `Unknown` so that interpretation stays total; `Unknown` never
      carries one of the six tags the interpreter knows, which always map to
      their own constructors. */
  datatype Op =
    | Move(steps: int)
    | Turn(degrees: int)
    | Goto(x: real, y: real)
    | Say(text: string, seconds: int)
    | Think(text: string, seconds: int)
    | Repeat(times: int)
    | Unknown(tag: string)

  /** One block: its operation, its category label and its child blocks (an
      absent `children` list is the empty sequence; only `repeat` reads it). */
  datatype Block = Block(op: Op, category: Category, children: seq<Block>)
}
