/** The optional value used wherever the indexer's schema has a nullable field
    or a function may return `null`. */
module Options {

  datatype Option<+T> = None | Some(value: T)
}
