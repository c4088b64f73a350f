/** The published render state: a content size and the rendered items. */
module RenderState {

  /**
   * A rendered item. `ref` stands for the identity of the item's ref callback: the number of
   * the update pass that created the item object. Reusing an item keeps its `ref`.
   */
  datatype Item = Item(index: int, start: real, size: real, end: real, ref: nat)

  datatype State = State(size: real, items: seq<Item>)

  /** `getInitialState`: nothing rendered, size 0. */
  function InitialState(): State {
    State(0.0, [])
  }
}
