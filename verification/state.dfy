/** The Todo record (src/state.rs). */
module State {

  /** Rust's `u8`: the id field can only hold 0..255. */
  type u8 = x: int | 0 <= x < 256

  /** One stored Todo. Its `id` doubles as the store key, in decimal. */
  datatype Todo = Todo(id: u8, name: string, description: string)
}
