/** The field type tags of a record schema (the `EFieldType` enumeration). */
module FieldTypes {

  datatype FieldType =
    | eBoolean
    | eDate
    | eEnum
    | eFloat
    | eInteger
    | eReference
    | eString
    | eSubModel
    | eObject
}
