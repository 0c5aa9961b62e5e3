/**
 * The semantic tags that the syntax tree and the runtime values report
 * (tags.hpp). The header lacks `null` and `block_do`; values.cpp and
 * exprs.cpp use them, so they are included here.
 */
module Tags {
  datatype BasicTypeTag =
    | UnknownType
    | NullType
    | BooleanType
    | NumberExactType
    | NumberRealType
    | StringType
    | ListyType
    | CallableType

  datatype ListTag = DefVariable | DefLambda | ExprDatum | ExprMultiple | BlockDo
}
