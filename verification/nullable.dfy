/**
 A field or argument that the source declares as possibly `null`, such as a
 player's seed or an unfilled match slot.
 */
module NullableValues {

  datatype Nullable<+T> = Null | NonNull(value: T)
}
