/** An optional value: a column's optional `searchable` flag and search
    override, and the element `find` may or may not return. */
module Options {

  datatype Option<T> = None | Some(value: T)
}
