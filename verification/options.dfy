/** The optional value used for the screen's nullable state slots: `None` stands
    for the JavaScript `null` a slot holds before anything is selected. */
module Options {

  datatype Option<+T> = None | Some(value: T)
}
