/** Optional values and results shared by the whole model. An empty text
    field of the annotation form is `None`; an operation of the source that
    raises is modelled by `Failure`. */
module Common {

  datatype Option<+T> = None | Some(value: T)

  datatype Result<+R, +E> = Success(value: R) | Failure(error: E)
}
