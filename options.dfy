/** The conventional optional value, standing for JavaScript's `null` and
    `undefined` where the game's code returns or stores "nothing". */
module Options {

  datatype Option<+T> = None | Some(value: T)
}
